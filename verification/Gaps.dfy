/** Unindexed heights: as a list, as statistics, and as maximal intervals. */
module Gaps {

  /** The heights of [lo, hi) that are not indexed, in increasing order. */
  function MissingIn(blocks: set<nat>, lo: nat, hi: nat): seq<nat> {
    if hi <= lo then []
    else MissingIn(blocks, lo, hi - 1) + if hi - 1 in blocks then [] else [hi - 1]
  }

  ghost predicate Increasing(s: seq<nat>) {
    forall i, j :: 0 <= i < j < |s| ==> s[i] < s[j]
  }

  lemma IncreasingSnoc(s: seq<nat>, x: nat)
    requires Increasing(s) && forall y :: y in s ==> y < x
    ensures Increasing(s + [x]) && forall y :: y in s + [x] <==> y in s || y == x
  {
    assert forall i :: 0 <= i < |s| ==> s[i] in s;
  }

  lemma {:induction false} MissingMembers(blocks: set<nat>, lo: nat, hi: nat, h: nat)
    ensures h in MissingIn(blocks, lo, hi) <==> lo <= h < hi && h !in blocks
    decreases hi
  {
    if lo < hi {
      MissingMembers(blocks, lo, hi - 1, h);
    }
  }

  lemma {:induction false} MissingIncreases(blocks: set<nat>, lo: nat, hi: nat)
    ensures Increasing(MissingIn(blocks, lo, hi))
    decreases hi
  {
    if lo < hi {
      var rest := MissingIn(blocks, lo, hi - 1);
      MissingIncreases(blocks, lo, hi - 1);
      forall h | h in rest ensures h < hi - 1 {
        MissingMembers(blocks, lo, hi - 1, h);
      }
      IncreasingSnoc(rest, hi - 1);
    }
  }

  /** The list holds every missing height of the range, once and in order. */
  lemma MissingIsMissing(blocks: set<nat>, lo: nat, hi: nat)
    ensures Increasing(MissingIn(blocks, lo, hi))
    ensures forall h :: h in MissingIn(blocks, lo, hi) <==> lo <= h < hi && h !in blocks
  {
    MissingIncreases(blocks, lo, hi);
    forall h: nat ensures h in MissingIn(blocks, lo, hi) <==> lo <= h < hi && h !in blocks {
      MissingMembers(blocks, lo, hi, h);
    }
  }

  lemma {:induction false} MissingSplits(blocks: set<nat>, lo: nat, mid: nat, hi: nat)
    requires lo <= mid <= hi
    ensures MissingIn(blocks, lo, hi) == MissingIn(blocks, lo, mid) + MissingIn(blocks, mid, hi)
    decreases hi
  {
    if mid < hi {
      MissingSplits(blocks, lo, mid, hi - 1);
    }
  }

  /** The missing heights of [start, end], at most limit of them, lowest first. */
  method FindMissingHeights(blocks: set<nat>, start: nat, end: nat, limit: nat) returns (heights: seq<nat>)
    ensures var all := MissingIn(blocks, start, end + 1);
            heights == all[..if limit < |all| then limit else |all|]
  {
    heights := [];
    var h := start;
    while h <= end && |heights| < limit
      invariant start <= h && (h <= end + 1 || h == start)
      invariant heights == MissingIn(blocks, start, h) && |heights| <= limit
      decreases end + 1 - h
    {
      if h !in blocks {
        heights := heights + [h];
      }
      h := h + 1;
    }
    if h <= end {
      MissingSplits(blocks, start, h, end + 1);
    }
  }

  // ================================================================ statistics

  datatype GapStats = GapStats(totalExpected: nat, totalIndexed: nat, totalMissing: nat, firstMissing: nat, lastMissing: nat)

  function GetGapStats(blocks: set<nat>, start: nat, end: nat): GapStats {
    var missing := MissingIn(blocks, start, end + 1);
    GapStats(if start <= end then end + 1 - start else 0,
             |set h | h in blocks && start <= h <= end|,
             |missing|,
             if missing == [] then 0 else missing[0],
             if missing == [] then 0 else missing[|missing| - 1])
  }

  lemma {:induction false} CountsAddUp(blocks: set<nat>, lo: nat, hi: nat)
    requires lo <= hi
    ensures |set h | h in blocks && lo <= h < hi| + |MissingIn(blocks, lo, hi)| == hi - lo
    decreases hi
  {
    var indexed := set h | h in blocks && lo <= h < hi;
    if lo == hi {
      assert indexed == {};
    } else {
      CountsAddUp(blocks, lo, hi - 1);
      var fewer := set h | h in blocks && lo <= h < hi - 1;
      if hi - 1 in blocks {
        assert indexed == fewer + {hi - 1};
      } else {
        assert indexed == fewer;
      }
    }
  }

  /** As many heights are expected as would be missing if none were indexed, and each of them is either indexed or missing. */
  lemma GapStatsAddUp(blocks: set<nat>, start: nat, end: nat)
    ensures var s := GetGapStats(blocks, start, end);
            && s.totalExpected == |MissingIn({}, start, end + 1)| && s.totalIndexed == |set h | start <= h <= end && h in blocks|
            && s.totalExpected == s.totalIndexed + s.totalMissing
  {
    var inclusive, exclusive := set h | h in blocks && start <= h <= end, set h | h in blocks && start <= h < end + 1;
    assert inclusive == exclusive;
    assert inclusive == set h | start <= h <= end && h in blocks;
    if start <= end {
      CountsAddUp(blocks, start, end + 1);
      var none: set<nat> := {};
      CountsAddUp(none, start, end + 1);
      assert (set h | h in none && start <= h < end + 1) == {};
    } else {
      assert inclusive == {};
    }
  }

  lemma FirstAndLast(s: seq<nat>, h: nat)
    requires Increasing(s) && h in s
    ensures s[0] in s && s[|s| - 1] in s && s[0] <= h <= s[|s| - 1]
  {
    var i :| 0 <= i < |s| && s[i] == h;
  }

  lemma FirstAndLastBound(missing: seq<nat>, blocks: set<nat>, lo: nat, hi: nat)
    requires Increasing(missing) && missing != [] && forall h :: h in missing <==> lo <= h < hi && h !in blocks
    ensures var first, last := missing[0], missing[|missing| - 1];
            && lo <= first <= last < hi && first !in blocks && last !in blocks
            && forall h :: lo <= h < hi && h !in blocks ==> first <= h <= last
  {
    FirstAndLast(missing, missing[0]);
    forall h | h in missing ensures missing[0] <= h <= missing[|missing| - 1] {
      FirstAndLast(missing, h);
    }
  }

  /** Nothing is missing exactly when the count is zero; otherwise the first and last missing are missing and bound the rest. */
  lemma GapStatsBound(blocks: set<nat>, start: nat, end: nat)
    ensures var s := GetGapStats(blocks, start, end);
            && (s.totalMissing == 0 <==> forall h :: start <= h <= end ==> h in blocks)
            && (s.totalMissing > 0 ==> start <= s.firstMissing <= s.lastMissing <= end)
            && (s.totalMissing > 0 ==> s.firstMissing !in blocks && s.lastMissing !in blocks)
            && (forall h :: start <= h <= end && h !in blocks ==> s.firstMissing <= h <= s.lastMissing)
  {
    var missing := MissingIn(blocks, start, end + 1);
    MissingIsMissing(blocks, start, end + 1);
    if missing == [] {
      forall h | start <= h <= end ensures h in blocks {
        assert h !in missing;
      }
    } else {
      FirstAndLastBound(missing, blocks, start, end + 1);
    }
  }

  // ================================================================ intervals

  datatype Gap = Gap(from: nat, to: nat)

  /** One interval for every two neighbouring indexed heights that are not adjacent. */
  function GapsBetween(rows: seq<nat>): seq<Gap> {
    if |rows| < 2 then []
    else
      var prev, h := rows[|rows| - 2], rows[|rows| - 1];
      GapsBetween(rows[..|rows| - 1]) + if h > prev + 1 then [Gap(prev + 1, h - 1)] else []
  }

  /** Scans the indexed heights in order, comparing each with the one before. */
  method FindGaps(rows: seq<nat>) returns (gaps: seq<Gap>)
    ensures gaps == GapsBetween(rows)
  {
    gaps := [];
    for i := 0 to |rows|
      invariant gaps == GapsBetween(rows[..i])
    {
      assert rows[..i + 1][..i] == rows[..i];
      if i > 0 && rows[i] > rows[i - 1] + 1 {
        gaps := gaps + [Gap(rows[i - 1] + 1, rows[i] - 1)];
      }
    }
    assert rows[..|rows|] == rows;
  }

  /** The heights of a list of intervals, in order. */
  function Flatten(gaps: seq<Gap>): seq<nat> {
    if gaps == [] then []
    else
      var g := gaps[|gaps| - 1];
      Flatten(gaps[..|gaps| - 1]) + MissingIn({}, g.from, g.to + 1)
  }

  lemma FlattenSnoc(gaps: seq<Gap>, g: Gap)
    ensures Flatten(gaps + [g]) == Flatten(gaps) + MissingIn({}, g.from, g.to + 1)
  {
    assert (gaps + [g])[..|gaps|] == gaps;
  }

  lemma {:induction false} MissingWhereNoneIndexed(blocks: set<nat>, lo: nat, hi: nat)
    requires forall h :: lo <= h < hi ==> h !in blocks
    ensures MissingIn(blocks, lo, hi) == MissingIn({}, lo, hi)
    decreases hi
  {
    if lo < hi {
      MissingWhereNoneIndexed(blocks, lo, hi - 1);
    }
  }

  lemma {:induction false} MissingIgnoresAbove(blocks: set<nat>, more: set<nat>, lo: nat, hi: nat)
    requires forall h :: h < hi ==> (h in blocks <==> h in more)
    ensures MissingIn(blocks, lo, hi) == MissingIn(more, lo, hi)
    decreases hi
  {
    if lo < hi {
      MissingIgnoresAbove(blocks, more, lo, hi - 1);
    }
  }

  function Set(rows: seq<nat>): set<nat> { set h | h in rows }

  lemma NothingBetween(rows: seq<nat>, x: nat)
    requires Increasing(rows) && |rows| >= 2
    requires x in rows
    ensures x <= rows[|rows| - 2] || x == rows[|rows| - 1]
  {
    var i :| 0 <= i < |rows| && rows[i] == x;
  }

  /** What the last two indexed heights add to the intervals. */
  function Between(prev: nat, h: nat): seq<Gap> {
    if h > prev + 1 then [Gap(prev + 1, h - 1)] else []
  }

  /** The heights of at most one interval. */
  function HeightsOf(last: seq<Gap>): seq<nat> {
    if last == [] then [] else MissingIn({}, last[0].from, last[0].to + 1)
  }

  /** The last interval, if there is one, is what is missing between the last two indexed heights. */
  lemma LastGap(rows: seq<nat>)
    requires Increasing(rows) && |rows| >= 2
    ensures var prev, h := rows[|rows| - 2], rows[|rows| - 1];
            MissingIn(Set(rows), prev + 1, h + 1) == HeightsOf(Between(prev, h))
  {
    var n := |rows| - 1;
    var prev, h := rows[n - 1], rows[n];
    forall x | x in rows ensures !(prev + 1 <= x < h) {
      NothingBetween(rows, x);
    }
    assert rows[n] in rows && h in Set(rows);
    assert MissingIn(Set(rows), prev + 1, h + 1) == MissingIn(Set(rows), prev + 1, h);
    MissingWhereNoneIndexed(Set(rows), prev + 1, h);
  }

  lemma MissingUpToLast(rows: seq<nat>)
    requires Increasing(rows) && |rows| >= 2
    ensures var n := |rows| - 1;
            MissingIn(Set(rows), rows[0], rows[n] + 1) ==
            MissingIn(Set(rows[..n]), rows[0], rows[n - 1] + 1) + MissingIn(Set(rows), rows[n - 1] + 1, rows[n] + 1)
  {
    var n := |rows| - 1;
    forall x | x < rows[n - 1] + 1 ensures x in Set(rows[..n]) <==> x in Set(rows) {
      assert x in rows <==> x in rows[..n] || x == rows[n];
    }
    MissingIgnoresAbove(Set(rows[..n]), Set(rows), rows[0], rows[n - 1] + 1);
    MissingSplits(Set(rows), rows[0], rows[n - 1] + 1, rows[n] + 1);
  }

  lemma FlattenMore(gaps: seq<Gap>, last: seq<Gap>)
    requires |last| <= 1
    ensures Flatten(gaps + last) == Flatten(gaps) + HeightsOf(last)
  {
    if last == [] {
      assert gaps + last == gaps;
    } else {
      assert last == [last[0]];
      FlattenSnoc(gaps, last[0]);
    }
  }

  lemma GapsBetweenLast(rows: seq<nat>)
    requires |rows| >= 2
    ensures GapsBetween(rows) == GapsBetween(rows[..|rows| - 1]) + Between(rows[|rows| - 2], rows[|rows| - 1])
  {
  }

  /** Flattened, the intervals are exactly the missing heights between the least and the greatest indexed one. */
  lemma {:induction false} GapsFlatten(rows: seq<nat>)
    requires Increasing(rows) && rows != []
    ensures Flatten(GapsBetween(rows)) == MissingIn(Set(rows), rows[0], rows[|rows| - 1] + 1)
  {
    var n := |rows| - 1;
    if n == 0 {
      OneRow(rows);
    } else {
      GapsFlatten(rows[..n]);
      LastStep(rows, rows[..n], n);
    }
  }

  lemma OneRow(rows: seq<nat>)
    requires |rows| == 1
    ensures Flatten(GapsBetween(rows)) == MissingIn(Set(rows), rows[0], rows[|rows| - 1] + 1)
  {
    assert rows[0] in rows && rows[0] in Set(rows);
    assert MissingIn(Set(rows), rows[0], rows[0]) == [];
  }

  lemma LastMissing(rows: seq<nat>)
    requires Increasing(rows) && |rows| >= 2
    ensures var n := |rows| - 1;
            MissingIn(Set(rows), rows[0], rows[n] + 1) ==
            MissingIn(Set(rows[..n]), rows[0], rows[n - 1] + 1) + HeightsOf(Between(rows[n - 1], rows[n]))
  {
    MissingUpToLast(rows);
    LastGap(rows);
  }

  lemma LastStep(rows: seq<nat>, rest: seq<nat>, n: nat)
    requires Increasing(rows) && n > 0 && |rows| == n + 1 && rest == rows[..n]
    requires Flatten(GapsBetween(rest)) == MissingIn(Set(rest), rest[0], rest[|rest| - 1] + 1)
    ensures Flatten(GapsBetween(rows)) == MissingIn(Set(rows), rows[0], rows[|rows| - 1] + 1)
  {
    LastMissing(rows);
    GapsBetweenLast(rows);
    FlattenMore(GapsBetween(rows[..n]), Between(rows[n - 1], rows[n]));
  }

  ghost predicate Maximal(gaps: seq<Gap>, indexed: set<nat>) {
    && (forall i :: 0 <= i < |gaps| ==> 0 < gaps[i].from <= gaps[i].to)
    && (forall i :: 0 <= i < |gaps| ==> gaps[i].from - 1 in indexed && gaps[i].to + 1 in indexed)
    && (forall i, j :: 0 <= i < j < |gaps| ==> gaps[i].to + 1 < gaps[j].from)
  }

  ghost predicate EndBelow(gaps: seq<Gap>, h: nat) {
    forall i :: 0 <= i < |gaps| ==> gaps[i].to < h
  }

  lemma MaximalSnoc(gaps: seq<Gap>, indexed: set<nat>, prev: nat, h: nat)
    requires Maximal(gaps, indexed) && EndBelow(gaps, prev) && prev in indexed && prev + 1 < h
    ensures Maximal(gaps + [Gap(prev + 1, h - 1)], indexed + {h}) && EndBelow(gaps + [Gap(prev + 1, h - 1)], h)
  {
  }

  lemma MaximalGrows(gaps: seq<Gap>, indexed: set<nat>, prev: nat, h: nat)
    requires Maximal(gaps, indexed) && EndBelow(gaps, prev) && prev < h
    ensures Maximal(gaps, indexed + {h}) && EndBelow(gaps, h)
  {
  }

  lemma MaximalStep(gaps: seq<Gap>, indexed: set<nat>, prev: nat, h: nat)
    requires Maximal(gaps, indexed) && EndBelow(gaps, prev) && prev in indexed && prev < h
    ensures Maximal(gaps + Between(prev, h), indexed + {h}) && EndBelow(gaps + Between(prev, h), h)
  {
    if prev + 1 < h {
      MaximalSnoc(gaps, indexed, prev, h);
    } else {
      MaximalGrows(gaps, indexed, prev, h);
      assert gaps + Between(prev, h) == gaps;
    }
  }

  lemma LastOfSet(rows: seq<nat>)
    requires |rows| >= 2
    ensures var n := |rows| - 1;
            Set(rows) == Set(rows[..n]) + {rows[n]} && rows[n - 1] in Set(rows[..n])
  {
    var n := |rows| - 1;
    assert forall x :: x in rows <==> x in rows[..n] || x == rows[n];
    assert rows[..n][n - 1] in rows[..n];
  }

  /** The intervals are nonempty, in order, apart from each other, and bounded by indexed heights: none can grow. */
  lemma {:induction false} GapsAreMaximal(rows: seq<nat>)
    requires Increasing(rows)
    ensures Maximal(GapsBetween(rows), Set(rows))
    ensures rows != [] ==> EndBelow(GapsBetween(rows), rows[|rows| - 1])
  {
    if |rows| >= 2 {
      var n := |rows| - 1;
      var rest, prev, h := rows[..n], rows[n - 1], rows[n];
      GapsAreMaximal(rest);
      assert rest[|rest| - 1] == prev;
      LastOfSet(rows);
      GapsBetweenLast(rows);
      MaximalStep(GapsBetween(rest), Set(rest), prev, h);
    }
  }

  ghost predicate InGap(gaps: seq<Gap>, h: nat) {
    exists g :: g in gaps && g.from <= h <= g.to
  }

  lemma InGapMore(fewer: seq<Gap>, prev: nat, next: nat, h: nat)
    ensures InGap(fewer + Between(prev, next), h) <==> InGap(fewer, h) || prev < h < next
  {
    var last := Between(prev, next);
    assert forall g :: g in fewer + last <==> g in fewer || g in last;
    if prev < h < next {
      assert Gap(prev + 1, next - 1) in last;
    }
  }

  /** A height lies in one of the intervals exactly when it is between the indexed heights and not indexed itself. */
  lemma {:induction false} GapsCover(rows: seq<nat>, h: nat)
    requires Increasing(rows) && rows != []
    ensures InGap(GapsBetween(rows), h) <==> rows[0] < h < rows[|rows| - 1] && h !in rows
  {
    var n := |rows| - 1;
    if n > 0 {
      GapsCover(rows[..n], h);
      GapsBetweenLast(rows);
      InGapMore(GapsBetween(rows[..n]), rows[n - 1], rows[n], h);
      assert h in rows <==> h in rows[..n] || h == rows[n];
      if h in rows[..n] {
        var i :| 0 <= i < n && rows[i] == h;
        assert h <= rows[n - 1];
      }
    }
  }
}
