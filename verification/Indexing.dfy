/**
 The indexing protocol: workers check, commit, summarise, record and publish a block as separate
 steps, and may interleave or crash between any two of them.
 */
module Indexing {
  import opened Tables
  import opened ChangeDetection
  import opened Chain
  import opened Store

  function Heights(log: seq<Delivery>): set<nat> {
    set d | d in log :: d.height
  }

  lemma HeightsSnoc(log: seq<Delivery>, d: Delivery)
    ensures Heights(log + [d]) == Heights(log) + {d.height}
  {
    assert forall c :: c in log + [d] <==> c in log || c == d;
  }

  // ================================================================ interleaved workers

  /** How far a worker got with a block. */
  datatype Worker = Idle | Checked(d: Delivery) | Committed(height: nat) | Summarised(height: nat) | Recorded(height: nat)

  /** The shared state; S is the database, changed by whole transactions only. */
  datatype State<S> = State(tables: S, log: seq<Delivery>, blocks: set<nat>, summaries: set<nat>,
                         progress: set<nat>, published: set<nat>, workers: map<nat, Worker>)

  function PlaceOf(workers: map<nat, Worker>, w: nat): Worker {
    if w in workers then workers[w] else Idle
  }

  function At<S>(s: State<S>, w: nat): Worker {
    PlaceOf(s.workers, w)
  }

  function Move<S>(s: State<S>, w: nat, p: Worker): State<S> {
    s.(workers := s.workers[w := p])
  }

  datatype Action = Check(d: Delivery) | Commit | Rollback | Summarise | Record | SkipRecord | Publish | Crash

  /** What one committed delivery does to a database. */
  type Transaction<!S> = (S, Delivery) -> S

  ghost function CommitAll<S>(commit: Transaction<S>, empty: S, log: seq<Delivery>): S {
    if log == [] then empty else commit(CommitAll(commit, empty, log[..|log| - 1]), log[|log| - 1])
  }

  lemma CommitAllSnoc<S>(commit: Transaction<S>, empty: S, log: seq<Delivery>, d: Delivery)
    ensures CommitAll(commit, empty, log + [d]) == commit(CommitAll(commit, empty, log), d)
  {
    assert (log + [d])[..|log|] == log;
  }

  ghost predicate Init<S>(empty: S, s: State<S>) {
    s == State(empty, [], {}, {}, {}, {}, map[])
  }

  /** One step of worker w. A failed progress record does not stop it; every other failure ends the attempt. */
  ghost predicate Step<S>(commit: Transaction<S>, s: State<S>, w: nat, a: Action, s': State<S>) {
    match (a, At(s, w))
    case (Check(d), Idle) => s' == if d.height in s.blocks then s else Move(s, w, Checked(d))
    case (Commit, Checked(d)) =>
      s' == Move(s, w, Committed(d.height)).(tables := commit(s.tables, d),
                                             log := s.log + [d], blocks := s.blocks + {d.height})
    case (Rollback, Checked(d)) => s' == Move(s, w, Idle)
    case (Summarise, Committed(h)) => s' == Move(s, w, Summarised(h)).(summaries := s.summaries + {h})
    case (Record, Summarised(h)) => s' == Move(s, w, Recorded(h)).(progress := s.progress + {h})
    case (SkipRecord, Summarised(h)) => s' == Move(s, w, Recorded(h))
    case (Publish, Recorded(h)) => s' == Move(s, w, Idle).(published := s.published + {h})
    case (Crash, _) => s' == Move(s, w, Idle)
    case _ => false
  }

  ghost predicate Next<S>(commit: Transaction<S>, s: State<S>, s': State<S>) {
    exists w, a :: Step(commit, s, w, a, s')
  }

  ghost predicate IsRun<S>(commit: Transaction<S>, empty: S, run: seq<State<S>>) {
    |run| > 0 && Init(empty, run[0]) && forall i :: 0 < i < |run| ==> Next(commit, run[i - 1], run[i])
  }

  /** What holds in every reachable state. */
  ghost predicate Safe<S>(commit: Transaction<S>, empty: S, s: State<S>) {
    && s.tables == CommitAll(commit, empty, s.log)
    && s.blocks == Heights(s.log)
    && s.progress <= s.summaries <= s.blocks
    && s.published <= s.summaries
    && (forall w :: At(s, w).Committed? ==> At(s, w).height in s.blocks)
    && (forall w :: At(s, w).Summarised? || At(s, w).Recorded? ==> At(s, w).height in s.summaries)
  }

  lemma InitIsSafe<S>(commit: Transaction<S>, empty: S, s: State<S>)
    requires Init(empty, s)
    ensures Safe(commit, empty, s)
  {
  }

  lemma StepKeepsSets<S>(commit: Transaction<S>, empty: S, s: State<S>, w: nat, a: Action, s': State<S>)
    requires Safe(commit, empty, s) && Step(commit, s, w, a, s')
    ensures s'.tables == CommitAll(commit, empty, s'.log) && s'.blocks == Heights(s'.log)
    ensures s'.progress <= s'.summaries <= s'.blocks && s'.published <= s'.summaries
    ensures s.summaries <= s'.summaries && s.blocks <= s'.blocks
  {
    if a.Commit? {
      var d := At(s, w).d;
      CommitAllSnoc(commit, empty, s.log, d);
      HeightsSnoc(s.log, d);
    }
  }

  lemma StepKeepsPlaces<S>(commit: Transaction<S>, empty: S, s: State<S>, w: nat, a: Action, s': State<S>, v: nat)
    requires Safe(commit, empty, s) && Step(commit, s, w, a, s') && s.summaries <= s'.summaries && s.blocks <= s'.blocks
    ensures At(s', v).Committed? ==> At(s', v).height in s'.blocks
    ensures At(s', v).Summarised? || At(s', v).Recorded? ==> At(s', v).height in s'.summaries
  {
    assert v != w ==> At(s', v) == At(s, v);
  }

  lemma StepKeepsSafe<S>(commit: Transaction<S>, empty: S, s: State<S>, w: nat, a: Action, s': State<S>)
    requires Safe(commit, empty, s) && Step(commit, s, w, a, s')
    ensures Safe(commit, empty, s')
  {
    StepKeepsSets(commit, empty, s, w, a, s');
    forall v: nat
      ensures At(s', v).Committed? ==> At(s', v).height in s'.blocks
      ensures At(s', v).Summarised? || At(s', v).Recorded? ==> At(s', v).height in s'.summaries
    {
      StepKeepsPlaces(commit, empty, s, w, a, s', v);
    }
  }

  /**
   Crash safety. In every state of every run: recorded progress is summarised, what is summarised or
   published is an indexed block, and the tables are what the committed deliveries alone leave - each
   block as a whole or not at all.
   */
  lemma {:induction false} RunIsSafe<S>(commit: Transaction<S>, empty: S, run: seq<State<S>>, i: nat)
    requires IsRun(commit, empty, run) && i < |run|
    ensures Safe(commit, empty, run[i])
  {
    if i == 0 {
      InitIsSafe(commit, empty, run[0]);
    } else {
      RunIsSafe(commit, empty, run, i - 1);
      assert Next(commit, run[i - 1], run[i]);
      var w, a :| Step(commit, run[i - 1], w, a, run[i]);
      StepKeepsSafe(commit, empty, run[i - 1], w, a, run[i]);
    }
  }

  /** The steps taken, by whom, lead from the start to s. */
  ghost predicate Reached<S(!new)>(commit: Transaction<S>, empty: S, trace: seq<(nat, Action)>, s: State<S>)
    decreases |trace|, 1
  {
    if trace == [] then Init(empty, s) else exists before :: ReachedFrom(commit, empty, trace, before, s)
  }

  /** The last of them from the state before. */
  ghost predicate ReachedFrom<S(!new)>(commit: Transaction<S>, empty: S, trace: seq<(nat, Action)>, before: State<S>, s: State<S>)
    requires trace != []
    decreases |trace|, 0
  {
    var n := |trace| - 1;
    Reached(commit, empty, trace[..n], before) && Step(commit, before, trace[n].0, trace[n].1, s)
  }

  lemma OneMoreStep<S(!new)>(commit: Transaction<S>, empty: S, trace: seq<(nat, Action)>, s: State<S>, w: nat, a: Action, s': State<S>)
    requires Reached(commit, empty, trace, s) && Step(commit, s, w, a, s')
    ensures Reached(commit, empty, trace + [(w, a)], s')
  {
    assert (trace + [(w, a)])[..|trace|] == trace;
    assert ReachedFrom(commit, empty, trace + [(w, a)], s, s');
  }

  /** What is reached is the end of a run. */
  lemma {:induction false} ReachedByRun<S(!new)>(commit: Transaction<S>, empty: S, trace: seq<(nat, Action)>, s: State<S>)
    returns (run: seq<State<S>>)
    requires Reached(commit, empty, trace, s)
    ensures IsRun(commit, empty, run) && |run| == |trace| + 1 && run[|trace|] == s
  {
    if trace == [] {
      run := [s];
    } else {
      var n := |trace| - 1;
      var before :| ReachedFrom(commit, empty, trace, before, s);
      run := ReachedByRun(commit, empty, trace[..n], before);
      assert Next(commit, before, s);
      run := run + [s];
    }
  }

  lemma ReachedIsSafe<S(!new)>(commit: Transaction<S>, empty: S, trace: seq<(nat, Action)>, s: State<S>)
    requires Reached(commit, empty, trace, s)
    ensures Safe(commit, empty, s)
  {
    var run := ReachedByRun(commit, empty, trace, s);
    RunIsSafe(commit, empty, run, |trace|);
  }

  /** What one worker did. */
  function Own(trace: seq<(nat, Action)>, w: nat): seq<Action> {
    if trace == [] then []
    else
      var last := trace[|trace| - 1];
      Own(trace[..|trace| - 1], w) + if last.0 == w then [last.1] else []
  }

  lemma OwnSnoc(trace: seq<(nat, Action)>, v: nat, a: Action, w: nat)
    ensures Own(trace + [(v, a)], w) == Own(trace, w) + if v == w then [a] else []
  {
    assert (trace + [(v, a)])[..|trace|] == trace;
  }

  // ================================================================ the chain's database

  ghost function CommitBlock(chain: Chain): Transaction<TableSet> {
    (t: TableSet, d: Delivery) => WriteBlock(t, RowsOf(chain, d))
  }

  lemma CommitBlockExtends(chain: Chain, log: seq<Delivery>, d: Delivery)
    ensures CommitBlock(chain)(ReplayAll(chain, log), d) == ReplayAll(chain, log + [d])
  {
    CommitExtendsReplay(chain, log, d);
  }

  lemma ReplayNothing(chain: Chain)
    ensures ReplayAll(chain, []) == EMPTY
  {
  }

  /** Whatever grows with each commit as the database does, is the database. */
  lemma {:induction false} CommitAllUnique<S>(commit: Transaction<S>, empty: S, state: seq<Delivery> -> S, log: seq<Delivery>)
    requires state([]) == empty
    requires forall l, d :: state(l + [d]) == commit(state(l), d)
    ensures CommitAll(commit, empty, log) == state(log)
  {
    if log != [] {
      var rest, d := log[..|log| - 1], log[|log| - 1];
      CommitAllUnique(commit, empty, state, rest);
      assert log == rest + [d];
    }
  }

  lemma CommitAllIsReplay(chain: Chain, log: seq<Delivery>)
    ensures CommitAll(CommitBlock(chain), EMPTY, log) == ReplayAll(chain, log)
  {
    var replay := (l: seq<Delivery>) => ReplayAll(chain, l);
    ReplayNothing(chain);
    forall l: seq<Delivery>, d: Delivery ensures replay(l + [d]) == CommitBlock(chain)(replay(l), d) {
      CommitBlockExtends(chain, l, d);
    }
    CommitAllUnique(CommitBlock(chain), EMPTY, replay, log);
  }

  /**
   Two runs that committed the same deliveries, however interleaved, repeated or crashed, end with the
   same blocks and, but for delta columns, the same tables; with equal deltas too when no height came in
   two ways.
   */
  lemma RunsAgree(chain: Chain, run: seq<State<TableSet>>, other: seq<State<TableSet>>, i: nat, j: nat)
    requires IsRun(CommitBlock(chain), EMPTY, run) && i < |run|
    requires IsRun(CommitBlock(chain), EMPTY, other) && j < |other|
    requires SameDeliveries(run[i].log, other[j].log)
    ensures run[i].blocks == other[j].blocks
    ensures WellFormed(chain) && ExclusiveDex(chain) ==> SameButDeltas(run[i].tables, other[j].tables)
    ensures Uniform(run[i].log) ==> run[i].tables == other[j].tables
  {
    RunIsSafe(CommitBlock(chain), EMPTY, run, i);
    RunIsSafe(CommitBlock(chain), EMPTY, other, j);
    CommitAllIsReplay(chain, run[i].log);
    CommitAllIsReplay(chain, other[j].log);
    if WellFormed(chain) && ExclusiveDex(chain) {
      DatabaseOrderIndependent(chain, run[i].log, other[j].log);
    }
    if Uniform(run[i].log) {
      UniformOrderIndependent(chain, run[i].log, other[j].log);
    }
  }

  // ================================================================ summaries that are lost

  /** The block is there, its summary is not, and no worker still holds the block. */
  ghost predicate Abandoned<S>(s: State<S>, h: nat) {
    && h in s.blocks && h !in s.summaries
    && (forall w :: At(s, w).Checked? ==> At(s, w).d.height != h)
    && (forall w :: At(s, w).Committed? ==> At(s, w).height != h)
  }

  lemma StepKeepsAbandoned<S>(commit: Transaction<S>, s: State<S>, w: nat, a: Action, s': State<S>, h: nat)
    requires Step(commit, s, w, a, s') && Abandoned(s, h)
    ensures Abandoned(s', h)
  {
    assert forall v :: v != w ==> At(s', v) == At(s, v);
  }

  /** A continuation of a state by steps of any workers. */
  ghost predicate Continues<S>(commit: Transaction<S>, s: State<S>, run: seq<State<S>>) {
    |run| > 0 && run[0] == s && forall i :: 0 < i < |run| ==> Next(commit, run[i - 1], run[i])
  }

  /** Redelivering the block does not bring its summary back: the check skips it, in every continuation. */
  lemma {:induction false} AbandonedForever<S>(commit: Transaction<S>, s: State<S>, run: seq<State<S>>, j: nat, h: nat)
    requires Continues(commit, s, run) && j < |run| && Abandoned(s, h)
    ensures Abandoned(run[j], h)
  {
    if j > 0 {
      AbandonedForever(commit, s, run, j - 1, h);
      assert Next(commit, run[j - 1], run[j]);
      var w, a :| Step(commit, run[j - 1], w, a, run[j]);
      StepKeepsAbandoned(commit, run[j - 1], w, a, run[j], h);
    }
  }

  lemma TwoSteps<S>(commit: Transaction<S>, s0: State<S>, w: nat, a: Action, s1: State<S>, b: Action, s2: State<S>)
    requires Step(commit, s0, w, a, s1) && Step(commit, s1, w, b, s2)
    ensures Continues(commit, s0, [s0, s1, s2])
  {
    assert Next(commit, s0, s1) && Next(commit, s1, s2);
  }

  lemma Prepend<S>(commit: Transaction<S>, s0: State<S>, w: nat, a: Action, s1: State<S>, run: seq<State<S>>)
    requires Step(commit, s0, w, a, s1) && Continues(commit, s1, run)
    ensures Continues(commit, s0, [s0] + run)
  {
    assert Next(commit, s0, s1);
  }

  /** A worker that holds the checked block commits and summarises it. */
  lemma FromChecked<S>(commit: Transaction<S>, s: State<S>, w: nat, d: Delivery) returns (run: seq<State<S>>)
    requires At(s, w) == Checked(d)
    ensures Continues(commit, s, run) && d.height in run[|run| - 1].summaries
  {
    var s1 := Move(s, w, Committed(d.height)).(tables := commit(s.tables, d), log := s.log + [d], blocks := s.blocks + {d.height});
    var s2 := Move(s1, w, Summarised(d.height)).(summaries := s1.summaries + {d.height});
    TwoSteps(commit, s, w, Commit, s1, Summarise, s2);
    run := [s, s1, s2];
  }

  /** A block nobody has yet is checked again by a worker that starts over. */
  lemma FromNothing<S>(commit: Transaction<S>, s: State<S>, h: nat) returns (run: seq<State<S>>)
    requires h !in s.blocks
    ensures Continues(commit, s, run) && h in run[|run| - 1].summaries
  {
    var d := Delivery(h, true);
    var s1 := Move(s, 0, Idle);
    var s2 := Move(s1, 0, Checked(d));
    var rest := FromChecked(commit, s2, 0, d);
    assert Step(commit, s, 0, Crash, s1) && Step(commit, s1, 0, Check(d), s2);
    Prepend(commit, s1, 0, Check(d), s2, rest);
    Prepend(commit, s, 0, Crash, s1, [s1] + rest);
    run := [s] + ([s1] + rest);
  }

  lemma FromCommitted<S>(commit: Transaction<S>, s: State<S>, w: nat, h: nat) returns (run: seq<State<S>>)
    requires At(s, w) == Committed(h)
    ensures Continues(commit, s, run) && h in run[|run| - 1].summaries
  {
    var s1 := Move(s, w, Summarised(h)).(summaries := s.summaries + {h});
    assert Step(commit, s, w, Summarise, s1) && Next(commit, s, s1);
    run := [s, s1];
  }

  ghost predicate CanBeSummarised<S(!new)>(commit: Transaction<S>, s: State<S>, h: nat) {
    exists run: seq<State<S>> :: Continues(commit, s, run) && h in run[|run| - 1].summaries
  }

  /** Exactly when: a missing summary can still come if and only if its block is not abandoned. */
  lemma SummarisedUnlessAbandoned<S(!new)>(commit: Transaction<S>, s: State<S>, h: nat)
    requires h !in s.summaries
    ensures CanBeSummarised(commit, s, h) <==> !Abandoned(s, h)
  {
    if Abandoned(s, h) {
      forall run: seq<State<S>> | Continues(commit, s, run) ensures h !in run[|run| - 1].summaries {
        AbandonedForever(commit, s, run, |run| - 1, h);
      }
    } else if h !in s.blocks {
      var run := FromNothing(commit, s, h);
    } else if w :| At(s, w).Checked? && At(s, w).d.height == h {
      var run := FromChecked(commit, s, w, At(s, w).d);
    } else {
      var w :| At(s, w).Committed? && At(s, w).height == h;
      var run := FromCommitted(commit, s, w, h);
    }
  }

  /** In a run, an abandoned block is never recorded or published either. */
  lemma AbandonedIsNeverPublished<S>(commit: Transaction<S>, empty: S, run: seq<State<S>>, i: nat, j: nat, h: nat)
    requires IsRun(commit, empty, run) && i <= j < |run| && Abandoned(run[i], h)
    ensures h !in run[j].summaries && h !in run[j].progress && h !in run[j].published
  {
    assert Continues(commit, run[i], run[i..]);
    AbandonedForever(commit, run[i], run[i..], j - i, h);
    RunIsSafe(commit, empty, run, j);
  }

  /** One crash between commit and summary is enough to abandon any block. */
  lemma CrashAbandons<S>(commit: Transaction<S>, empty: S, d: Delivery) returns (run: seq<State<S>>)
    ensures IsRun(commit, empty, run) && |run| == 4 && Abandoned(run[3], d.height)
  {
    var s0 := State(empty, [], {}, {}, {}, {}, map[]);
    var s1 := Move(s0, 0, Checked(d));
    var s2 := Move(s1, 0, Committed(d.height)).(tables := commit(s1.tables, d),
                                                log := s1.log + [d], blocks := s1.blocks + {d.height});
    var s3 := Move(s2, 0, Idle);
    assert Step(commit, s0, 0, Check(d), s1);
    assert Step(commit, s1, 0, Commit, s2);
    assert Step(commit, s2, 0, Crash, s3);
    run := [s0, s1, s2, s3];
  }
}
