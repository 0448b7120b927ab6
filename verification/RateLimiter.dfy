/** The client's token bucket, with clock readings in nanoseconds. */
module RateLimiter {
  import opened Arithmetic

  const SECOND: nat := 1_000_000_000

  /** Requests per second; 20 unless a positive number is configured. */
  function Rps(configured: int): nat {
    if configured <= 0 then 20 else configured
  }

  /** The most tokens the bucket holds; 40 unless a positive number is configured. */
  function Burst(configured: int): nat {
    if configured <= 0 then 40 else configured
  }

  /** Whole nanoseconds between two refills. */
  function RefillEvery(rps: int): nat {
    SECOND / Rps(rps)
  }

  /** Above one request a nanosecond the interval is zero. */
  lemma RefillEveryPositive(rps: int)
    ensures RefillEvery(rps) == 0 <==> rps > SECOND
    ensures RefillEvery(rps) * Rps(rps) <= SECOND < (RefillEvery(rps) + 1) * Rps(rps)
  {
    var n := Rps(rps);
    assert SECOND == RefillEvery(rps) * n + SECOND % n;
    assert (RefillEvery(rps) - 1) * n == RefillEvery(rps) * n - n;
  }

  // ================================================================ one caller after the other

  datatype Bucket = Bucket(tokens: int, maxTokens: nat, refillEvery: nat, lastRefill: int)

  /** At most one token a call, however much time went by. */
  function Refilled(b: Bucket, now: int): Bucket {
    if now - b.lastRefill < b.refillEvery then b
    else b.(tokens := if b.tokens < b.maxTokens then b.tokens + 1 else b.tokens, lastRefill := now)
  }

  /** One turn of the acquire loop: refill, then take a token if there is one. */
  function Turn(b: Bucket, now: int): (Bucket, bool) {
    var r := Refilled(b, now);
    if r.tokens > 0 then (r.(tokens := r.tokens - 1), true) else (r, false)
  }

  ghost predicate Ticking(from: int, clock: seq<int>) {
    && (forall i :: 0 <= i < |clock| ==> from <= clock[i])
    && (forall i, j :: 0 <= i < j < |clock| ==> clock[i] <= clock[j])
  }

  /** The bucket after one turn per clock reading, and how many of them acquired a token. */
  function Play(b: Bucket, clock: seq<int>): (Bucket, nat) {
    if clock == [] then (b, 0)
    else
      var (before, n) := Play(b, clock[..|clock| - 1]);
      var (after, ok) := Turn(before, clock[|clock| - 1]);
      (after, if ok then n + 1 else n)
  }

  function Fresh(maxTokens: nat, refillEvery: nat, start: int): Bucket {
    Bucket(maxTokens, maxTokens, refillEvery, start)
  }

  /** Tokens stay within the bucket; every token beyond the first maxTokens is paid for with time. */
  ghost predicate Paid(b: Bucket, maxTokens: nat, refillEvery: nat, start: int, acquired: nat) {
    && b.maxTokens == maxTokens && b.refillEvery == refillEvery
    && 0 <= b.tokens <= maxTokens
    && start <= b.lastRefill
    && (b.tokens + acquired - maxTokens) * refillEvery <= b.lastRefill - start
  }

  lemma TurnIsPaid(b: Bucket, maxTokens: nat, refillEvery: nat, start: int, acquired: nat, now: int)
    requires Paid(b, maxTokens, refillEvery, start, acquired) && b.lastRefill <= now
    ensures var (after, ok) := Turn(b, now);
            Paid(after, maxTokens, refillEvery, start, if ok then acquired + 1 else acquired) && after.lastRefill <= now
  {
    var r := Refilled(b, now);
    if r.tokens == b.tokens + 1 {
      assert (r.tokens + acquired - maxTokens) * refillEvery == (b.tokens + acquired - maxTokens) * refillEvery + refillEvery;
    }
  }

  lemma {:induction false} PlayIsPaid(maxTokens: nat, refillEvery: nat, start: int, clock: seq<int>)
    requires Ticking(start, clock)
    ensures var (b, n) := Play(Fresh(maxTokens, refillEvery, start), clock);
            && Paid(b, maxTokens, refillEvery, start, n)
            && b.lastRefill <= if clock == [] then start else clock[|clock| - 1]
  {
    if clock != [] {
      var m := |clock| - 1;
      PlayIsPaid(maxTokens, refillEvery, start, clock[..m]);
      var (b, n) := Play(Fresh(maxTokens, refillEvery, start), clock[..m]);
      assert b.lastRefill <= clock[m];
      TurnIsPaid(b, maxTokens, refillEvery, start, n, clock[m]);
    }
  }

  lemma PaidBound(b: Bucket, maxTokens: nat, refillEvery: nat, start: int, acquired: nat, t: int)
    requires Paid(b, maxTokens, refillEvery, start, acquired) && b.lastRefill <= t && refillEvery > 0
    ensures acquired <= maxTokens + (t - start) / refillEvery
  {
    MulKeepsOrder(acquired - maxTokens, b.tokens + acquired - maxTokens, refillEvery);
    DivideBound(acquired - maxTokens, refillEvery, t - start);
  }

  /**
   The rate bound, for every run of calls one at a time: tokens stay within the bucket, and what was
   acquired by time t is at most the burst plus one token for every full refill interval since the start.
   */
  lemma RateBound(rps: int, burst: int, start: int, clock: seq<int>, t: int)
    requires rps <= SECOND
    requires Ticking(start, clock) && start <= t && forall i :: 0 <= i < |clock| ==> clock[i] <= t
    ensures RefillEvery(rps) > 0
    ensures var (b, n) := Play(Fresh(Burst(burst), RefillEvery(rps), start), clock);
            0 <= b.tokens <= Burst(burst) && n <= Burst(burst) + (t - start) / RefillEvery(rps)
  {
    RefillEveryPositive(rps);
    var maxTokens, every := Burst(burst), RefillEvery(rps);
    PlayIsPaid(maxTokens, every, start, clock);
    var (b, n) := Play(Fresh(maxTokens, every, start), clock);
    PaidBound(b, maxTokens, every, start, n, t);
  }

  /** Configured above one request a nanosecond, the bucket limits nothing: every call is served, even at one instant. */
  lemma {:induction false} TooFastIsUnlimited(rps: int, burst: int, start: int, clock: seq<int>)
    requires rps > SECOND && Ticking(start, clock)
    ensures var (b, n) := Play(Fresh(Burst(burst), RefillEvery(rps), start), clock);
            n == |clock|
  {
    RefillEveryPositive(rps);
    if clock != [] {
      var m := |clock| - 1;
      TooFastIsUnlimited(rps, burst, start, clock[..m]);
      PlayIsPaid(Burst(burst), RefillEvery(rps), start, clock[..m]);
      var (b, n) := Play(Fresh(Burst(burst), RefillEvery(rps), start), clock[..m]);
      assert b.lastRefill <= clock[m];
    }
  }

  /** A turn fails only on an empty bucket within one interval of the last refill: nobody waits longer than that. */
  lemma TurnFailsOnlyEarly(maxTokens: nat, refillEvery: nat, start: int, clock: seq<int>, now: int)
    requires Ticking(start, clock) && maxTokens > 0
    requires now >= if clock == [] then start else clock[|clock| - 1]
    ensures var (b, n) := Play(Fresh(maxTokens, refillEvery, start), clock);
            !Turn(b, now).1 <==> b.tokens == 0 && now < b.lastRefill + refillEvery
  {
    PlayIsPaid(maxTokens, refillEvery, start, clock);
  }

  class TokenBucket {
    var tokens: int
    const maxTokens: nat
    const refillEvery: nat
    var lastRefill: int

    ghost function Value(): Bucket
      reads this
    {
      Bucket(tokens, maxTokens, refillEvery, lastRefill)
    }

    constructor (rps: int, burst: int, now: int)
      ensures Value() == Fresh(Burst(burst), RefillEvery(rps), now)
      ensures tokens == maxTokens == (if burst <= 0 then 40 else burst) && lastRefill == now
      ensures refillEvery == 1_000_000_000 / if rps <= 0 then 20 else rps
    {
      maxTokens, refillEvery := Burst(burst), RefillEvery(rps);
      tokens, lastRefill := Burst(burst), now;
    }

    method Refill(now: int)
      modifies this
      ensures Value() == Refilled(old(Value()), now)
      ensures lastRefill == if now - old(lastRefill) >= refillEvery then now else old(lastRefill)
      ensures tokens == if now - old(lastRefill) >= refillEvery && old(tokens) < maxTokens then old(tokens) + 1 else old(tokens)
    {
      if now - lastRefill >= refillEvery {
        if tokens < maxTokens {
          tokens := tokens + 1;
        }
        lastRefill := now;
      }
    }

    /** Turn after turn at the given readings until one gets a token; used counts the readings, all of them if none did. */
    method Acquire(clock: seq<int>) returns (ok: bool, used: nat)
      modifies this
      ensures used <= |clock| && (ok ==> used > 0) && (!ok ==> used == |clock|)
      ensures Play(old(Value()), clock[..used]) == (Value(), if ok then 1 else 0)
      ensures clock != [] && clock[0] - old(lastRefill) < refillEvery && old(tokens) > 0 ==>
                ok && used == 1 && tokens == old(tokens) - 1 && lastRefill == old(lastRefill)
      ensures clock != [] && clock[0] - old(lastRefill) >= refillEvery && 0 <= old(tokens) && maxTokens > 0 ==>
                ok && used == 1 && tokens == (if old(tokens) < maxTokens then old(tokens) else old(tokens) - 1) && lastRefill == clock[0]
    {
      used := 0;
      while used < |clock|
        invariant used <= |clock| && Play(old(Value()), clock[..used]) == (Value(), 0)
        invariant used == 0 ==> tokens == old(tokens) && lastRefill == old(lastRefill)
        invariant used > 0 && clock[0] - old(lastRefill) < refillEvery ==> old(tokens) <= 0
        invariant used > 0 && clock[0] - old(lastRefill) >= refillEvery ==> old(tokens) < 0 || maxTokens == 0
      {
        assert clock[..used + 1][..used] == clock[..used];
        Refill(clock[used]);
        used := used + 1;
        if tokens > 0 {
          tokens := tokens - 1;
          return true, used;
        }
      }
      ok := false;
    }
  }

  // ================================================================ callers interleaved

  /** Where a caller is: between the check and the write of a refill or of an acquisition, or elsewhere. */
  datatype Caller = Away | Checking | AboutToAdd | Storing | AboutToTake

  datatype Shared = Shared(tokens: int, maxTokens: nat, callers: seq<Caller>)

  /** One atomic step of caller i. Whether enough time went by for a refill is left open. */
  ghost predicate Step(s: Shared, i: nat, s': Shared) {
    && i < |s.callers|
    && match s.callers[i]
       case Away => s' == At(s, i, Checking) || s' == At(s, i, if s.tokens > 0 then AboutToTake else Away)
       case Checking => s' == At(s, i, if s.tokens < s.maxTokens then AboutToAdd else Storing)
       case AboutToAdd => s' == At(s, i, Storing).(tokens := s.tokens + 1)
       case Storing => s' == At(s, i, if s.tokens > 0 then AboutToTake else Away)
       case AboutToTake => s' == At(s, i, Away).(tokens := s.tokens - 1)
  }

  function At(s: Shared, i: nat, c: Caller): Shared
    requires i < |s.callers|
  {
    s.(callers := s.callers[i := c])
  }

  function Count(callers: seq<Caller>, c: Caller): nat {
    if callers == [] then 0 else Count(callers[..|callers| - 1], c) + if callers[|callers| - 1] == c then 1 else 0
  }

  lemma {:induction false} CountUpdate(callers: seq<Caller>, i: nat, c: Caller, d: Caller)
    requires i < |callers|
    ensures Count(callers[i := d], c) == Count(callers, c) - (if callers[i] == c then 1 else 0) + (if d == c then 1 else 0)
  {
    var n := |callers| - 1;
    if i < n {
      assert callers[i := d][..n] == callers[..n][i := d];
      CountUpdate(callers[..n], i, c, d);
    } else {
      assert callers[i := d][..n] == callers[..n];
    }
  }

  lemma {:induction false} CountBound(callers: seq<Caller>, c: Caller)
    ensures Count(callers, c) <= |callers|
  {
    if callers != [] {
      CountBound(callers[..|callers| - 1], c);
    }
  }

  /** The checks are not atomic with the writes, so that all callers together may overshoot by all but one of them. */
  ghost predicate Overshoot(s: Shared) {
    && s.tokens + Count(s.callers, AboutToAdd) <= s.maxTokens + |s.callers| - 1
    && s.tokens - Count(s.callers, AboutToTake) >= 1 - |s.callers|
  }

  lemma StepKeepsOvershoot(s: Shared, i: nat, s': Shared)
    requires Overshoot(s) && Step(s, i, s')
    ensures Overshoot(s')
  {
    CountUpdate(s.callers, i, AboutToAdd, s'.callers[i]);
    CountUpdate(s.callers, i, AboutToTake, s'.callers[i]);
    CountBound(s'.callers, AboutToAdd);
    CountBound(s'.callers, AboutToTake);
  }

  ghost predicate Next(s: Shared, s': Shared) {
    exists i :: Step(s, i, s')
  }

  ghost predicate IsRun(maxTokens: nat, run: seq<Shared>) {
    && |run| > 0 && run[0].tokens == run[0].maxTokens == maxTokens && |run[0].callers| > 0
    && (forall c :: c in run[0].callers ==> c == Away)
    && forall k :: 0 < k < |run| ==> Next(run[k - 1], run[k])
  }

  lemma {:induction false} CountAway(callers: seq<Caller>, c: Caller)
    requires c != Away && forall x :: x in callers ==> x == Away
    ensures Count(callers, c) == 0
  {
    if callers != [] {
      var rest := callers[..|callers| - 1];
      assert forall x :: x in rest ==> x in callers;
      assert callers[|callers| - 1] in callers;
      CountAway(rest, c);
    }
  }

  lemma {:induction false} RunOvershoots(maxTokens: nat, run: seq<Shared>, k: nat)
    requires IsRun(maxTokens, run) && k < |run|
    ensures Overshoot(run[k]) && run[k].maxTokens == maxTokens && |run[k].callers| == |run[0].callers|
  {
    if k == 0 {
      CountAway(run[0].callers, AboutToAdd);
      CountAway(run[0].callers, AboutToTake);
    } else {
      RunOvershoots(maxTokens, run, k - 1);
      assert Next(run[k - 1], run[k]);
      var i :| Step(run[k - 1], i, run[k]);
      StepKeepsOvershoot(run[k - 1], i, run[k]);
    }
  }

  /** In every state of every run of n interleaved callers, tokens lie between 1 - n and maxTokens + n - 1. */
  lemma InterleavedBound(maxTokens: nat, run: seq<Shared>, k: nat)
    requires IsRun(maxTokens, run) && k < |run|
    ensures var n := |run[0].callers|;
            1 - n <= run[k].tokens <= maxTokens + n - 1
  {
    RunOvershoots(maxTokens, run, k);
  }

  // Both bounds are met, for any number of callers and any bucket.

  ghost predicate Reaches(maxTokens: nat, n: nat, s: Shared) {
    exists run: seq<Shared> :: IsRun(maxTokens, run) && |run[0].callers| == n && run[|run| - 1] == s
  }

  lemma ReachesNext(maxTokens: nat, n: nat, s: Shared, i: nat, s': Shared)
    requires Reaches(maxTokens, n, s) && Step(s, i, s')
    ensures Reaches(maxTokens, n, s')
  {
    var run: seq<Shared> :| IsRun(maxTokens, run) && |run[0].callers| == n && run[|run| - 1] == s;
    assert Next(s, s');
    var longer := run + [s'];
    assert IsRun(maxTokens, longer) && longer[|longer| - 1] == s';
  }

  /** The first k callers are at one place, the others at another. */
  function Split(n: nat, k: nat, first: Caller, rest: Caller): (r: seq<Caller>)
    ensures |r| == n && forall i :: 0 <= i < n ==> r[i] == if i < k then first else rest
  {
    seq(n, i => if i < k then first else rest)
  }

  function All(n: nat, c: Caller): seq<Caller> {
    Split(n, 0, c, c)
  }

  /** A caller may go from one place to another, changing the bucket by that much. */
  predicate MayGo(from: Caller, to: Caller, change: int, tokens: int, maxTokens: nat) {
    match (from, to)
    case (Away, Checking) => change == 0
    case (Away, AboutToTake) => change == 0 && tokens > 0
    case (Checking, AboutToAdd) => change == 0 && tokens < maxTokens
    case (AboutToAdd, Storing) => change == 1
    case (AboutToTake, Away) => change == -1
    case _ => false
  }

  /** All callers make the same move, one after the other. */
  lemma {:induction false} AllGo(maxTokens: nat, n: nat, from: Caller, to: Caller, change: int, tokens: int, k: nat)
    requires Reaches(maxTokens, n, Shared(tokens, maxTokens, All(n, from))) && MayGo(from, to, change, tokens, maxTokens) && k <= n
    ensures Reaches(maxTokens, n, Shared(tokens + k * change, maxTokens, Split(n, k, to, from)))
    ensures k == n ==> Reaches(maxTokens, n, Shared(tokens + n * change, maxTokens, All(n, to)))
  {
    if k == 0 {
      assert All(n, from) == Split(n, 0, to, from);
    } else {
      AllGo(maxTokens, n, from, to, change, tokens, k - 1);
      var s := Shared(tokens + (k - 1) * change, maxTokens, Split(n, k - 1, to, from));
      var s' := At(s, k - 1, to).(tokens := s.tokens + change);
      assert s'.callers == Split(n, k, to, from) && s'.tokens == tokens + k * change;
      assert Step(s, k - 1, s');
      ReachesNext(maxTokens, n, s, k - 1, s');
    }
    if k == n {
      assert Split(n, n, to, from) == All(n, to);
    }
  }

  /** One caller alone empties the bucket as far as it likes. */
  lemma {:induction false} Drained(maxTokens: nat, n: nat, tokens: nat)
    requires n > 0 && tokens <= maxTokens
    ensures Reaches(maxTokens, n, Shared(tokens, maxTokens, All(n, Away)))
    decreases maxTokens - tokens
  {
    if tokens == maxTokens {
      var s := Shared(maxTokens, maxTokens, All(n, Away));
      assert IsRun(maxTokens, [s]) && [s][0] == s;
    } else {
      Drained(maxTokens, n, tokens + 1);
      var s := Shared(tokens + 1, maxTokens, All(n, Away));
      var s' := At(s, 0, AboutToTake);
      var s'' := At(s', 0, Away).(tokens := tokens);
      assert s''.callers == All(n, Away);
      ReachesNext(maxTokens, n, s, 0, s');
      ReachesNext(maxTokens, n, s', 0, s'');
    }
  }

  /** Any n callers can take one last token n times. */
  lemma BelowZeroIsReached(maxTokens: nat, n: nat) returns (run: seq<Shared>)
    requires n > 0 && maxTokens > 0
    ensures IsRun(maxTokens, run) && |run[0].callers| == n && run[|run| - 1].tokens == 1 - n
  {
    Drained(maxTokens, n, 1);
    AllGo(maxTokens, n, Away, AboutToTake, 0, 1, n);
    AllGo(maxTokens, n, AboutToTake, Away, -1, 1, n);
    run :| IsRun(maxTokens, run) && |run[0].callers| == n && run[|run| - 1] == Shared(1 - n, maxTokens, All(n, Away));
  }

  /** And refill one missing token n times. */
  lemma AboveBurstIsReached(maxTokens: nat, n: nat) returns (run: seq<Shared>)
    requires n > 0 && maxTokens > 0
    ensures IsRun(maxTokens, run) && |run[0].callers| == n && run[|run| - 1].tokens == maxTokens + n - 1
  {
    Drained(maxTokens, n, maxTokens - 1);
    AllGo(maxTokens, n, Away, Checking, 0, maxTokens - 1, n);
    AllGo(maxTokens, n, Checking, AboutToAdd, 0, maxTokens - 1, n);
    AllGo(maxTokens, n, AboutToAdd, Storing, 1, maxTokens - 1, n);
    run :| IsRun(maxTokens, run) && |run[0].callers| == n && run[|run| - 1] == Shared(maxTokens + n - 1, maxTokens, All(n, Storing));
  }

  /** Every run of n callers keeps the bucket between empty and full. */
  ghost predicate AlwaysWithin(maxTokens: nat, n: nat) {
    forall run: seq<Shared>, k :: IsRun(maxTokens, run) && |run[0].callers| == n && 0 <= k < |run| ==> 0 <= run[k].tokens <= maxTokens
  }

  /** Exactly when the bucket is safe: with one caller. */
  lemma AlwaysWithinExactly(maxTokens: nat, n: nat)
    requires n > 0 && maxTokens > 0
    ensures AlwaysWithin(maxTokens, n) <==> n == 1
  {
    if n == 1 {
      forall run: seq<Shared>, k | IsRun(maxTokens, run) && |run[0].callers| == n && 0 <= k < |run|
        ensures 0 <= run[k].tokens <= maxTokens
      {
        InterleavedBound(maxTokens, run, k);
      }
    } else {
      var run := BelowZeroIsReached(maxTokens, n);
      assert run[|run| - 1].tokens < 0;
    }
  }
}
