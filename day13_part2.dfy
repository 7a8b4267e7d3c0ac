/** Day 13, part 2: every pattern has one smudge; the line of reflection sought is the one
    that mismatches in exactly one cell. */
module Day13Part2 {
  import opened Text
  import Day13Part1

  /** The mismatches between `s[n]` and its mirror `s[2 * pos - n - 1]`, for `n` in `lo..hi`. */
  function MismatchRange<T(==)>(s: seq<T>, pos: nat, lo: nat, hi: nat): nat
    requires lo <= hi <= |s| && hi <= 2 * pos <= |s| + lo
    decreases hi - lo
  {
    if lo == hi then 0
    else (if s[lo] != s[2 * pos - lo - 1] then 1 else 0) + MismatchRange(s, pos, lo + 1, hi)
  }

  /** `count_vertical_smudges`: the mismatched mirrored cells of a row, counted on the
      shorter side of `pos`. */
  function CountVerticalSmudges(line: string, pos: nat): nat
  {
    if |line| / 2 < pos then (if pos >= |line| then 0 else MismatchRange(line, pos, pos, |line|))
    else MismatchRange(line, pos, 0, pos)
  }

  /** How many of the first `w` mirrored pairs around `pos`, by distance from the line,
      differ. */
  function Mismatches<T(==)>(s: seq<T>, pos: nat, w: nat): nat
    requires w == 0 || (w <= pos && pos + w <= |s|)
  {
    if w == 0 then 0
    else Mismatches(s, pos, w - 1) + (if s[pos - w] != s[pos + w - 1] then 1 else 0)
  }

  /** The number of mirrored pairs around `pos` that lie inside `s`. */
  function Width(n: nat, pos: nat): (w: nat)
    ensures w == 0 || (w <= pos && pos + w <= n)
  {
    if pos > n then 0 else if pos <= n - pos then pos else n - pos
  }

  lemma {:induction false} MismatchRangeSnoc<T>(s: seq<T>, pos: nat, lo: nat, hi: nat)
    requires lo < hi <= |s| && hi <= 2 * pos <= |s| + lo
    ensures MismatchRange(s, pos, lo, hi)
      == MismatchRange(s, pos, lo, hi - 1) + (if s[hi - 1] != s[2 * pos - hi] then 1 else 0)
    decreases hi - lo
  {
    if lo < hi - 1 {
      MismatchRangeSnoc(s, pos, lo + 1, hi);
    }
  }

  lemma {:induction false} RightSideCountsPairs<T>(s: seq<T>, pos: nat, w: nat)
    requires w <= pos && pos + w <= |s| && pos + w <= 2 * pos
    ensures MismatchRange(s, pos, pos, pos + w) == Mismatches(s, pos, w)
  {
    if w > 0 {
      MismatchRangeSnoc(s, pos, pos, pos + w);
      RightSideCountsPairs(s, pos, w - 1);
    }
  }

  lemma {:induction false} LeftSideCountsPairs<T>(s: seq<T>, pos: nat, w: nat)
    requires w <= pos && 2 * pos <= |s|
    ensures MismatchRange(s, pos, pos - w, pos) == Mismatches(s, pos, w)
  {
    if w > 0 {
      LeftSideCountsPairs(s, pos, w - 1);
    }
  }

  /** A row's smudge count is the number of mirrored pairs around `pos` that differ. */
  lemma SmudgesArePairs(line: string, pos: nat)
    ensures CountVerticalSmudges(line, pos) == Mismatches(line, pos, Width(|line|, pos))
  {
    if |line| / 2 < pos {
      if pos < |line| {
        RightSideCountsPairs(line, pos, |line| - pos);
      }
    } else {
      LeftSideCountsPairs(line, pos, pos);
    }
  }

  lemma {:induction false} MismatchRangeZero<T>(s: seq<T>, pos: nat, lo: nat, hi: nat)
    requires lo <= hi <= |s| && hi <= 2 * pos <= |s| + lo
    ensures MismatchRange(s, pos, lo, hi) == 0 <==> forall n :: lo <= n < hi ==> s[n] == s[2 * pos - n - 1]
    decreases hi - lo
  {
    if lo < hi {
      MismatchRangeZero(s, pos, lo + 1, hi);
    }
  }

  /** A row has no smudge at `pos` exactly when it reflects there. */
  lemma NoSmudgeIsReflection(line: string, pos: nat)
    ensures CountVerticalSmudges(line, pos) == 0 <==> Day13Part1.IsReflection(line, pos)
  {
    if |line| / 2 < pos {
      if pos < |line| {
        MismatchRangeZero(line, pos, pos, |line|);
      }
    } else {
      MismatchRangeZero(line, pos, 0, pos);
    }
  }

  /** `count_differences`: the positions where two rows differ, over the shorter one. */
  function CountDifferences(lhs: string, rhs: string): (k: nat)
    ensures k <= |lhs| && k <= |rhs|
  {
    if lhs == [] || rhs == [] then 0
    else (if lhs[0] != rhs[0] then 1 else 0) + CountDifferences(lhs[1..], rhs[1..])
  }

  /** Rows of one width differ nowhere exactly when they are equal. */
  lemma {:induction false} NoDifferencesIsEqual(lhs: string, rhs: string)
    requires |lhs| == |rhs|
    ensures CountDifferences(lhs, rhs) == 0 <==> lhs == rhs
  {
    if lhs != [] {
      NoDifferencesIsEqual(lhs[1..], rhs[1..]);
      if lhs[0] == rhs[0] && lhs[1..] == rhs[1..] {
        assert lhs == [lhs[0]] + lhs[1..] && rhs == [rhs[0]] + rhs[1..];
      }
    }
  }

  lemma {:induction false} DifferencesSymmetric(lhs: string, rhs: string)
    ensures CountDifferences(lhs, rhs) == CountDifferences(rhs, lhs)
  {
    if lhs != [] && rhs != [] {
      DifferencesSymmetric(lhs[1..], rhs[1..]);
    }
  }

  /** The differences between each row `n` in `lo..hi` and its mirror. */
  function DifferenceRange(grid: seq<string>, pos: nat, lo: nat, hi: nat): nat
    requires lo <= hi <= |grid| && hi <= 2 * pos <= |grid| + lo
    decreases hi - lo
  {
    if lo == hi then 0
    else CountDifferences(grid[lo], grid[2 * pos - lo - 1]) + DifferenceRange(grid, pos, lo + 1, hi)
  }

  /** `count_horizontal_smudges`: the differing cells between mirrored rows, counted on the
      shorter side of `pos`. */
  function CountHorizontalSmudges(grid: seq<string>, pos: nat): nat
  {
    if |grid| / 2 < pos then (if pos >= |grid| then 0 else DifferenceRange(grid, pos, pos, |grid|))
    else DifferenceRange(grid, pos, 0, pos)
  }

  predicate Rectangular(grid: seq<string>)
  {
    forall i, j :: 0 <= i < |grid| && 0 <= j < |grid| ==> |grid[i]| == |grid[j]|
  }

  lemma {:induction false} DifferenceRangeZero(grid: seq<string>, pos: nat, lo: nat, hi: nat)
    requires Rectangular(grid)
    requires lo <= hi <= |grid| && hi <= 2 * pos <= |grid| + lo
    ensures DifferenceRange(grid, pos, lo, hi) == 0 <==>
      forall n :: lo <= n < hi ==> grid[n] == grid[2 * pos - n - 1]
    decreases hi - lo
  {
    if lo < hi {
      DifferenceRangeZero(grid, pos, lo + 1, hi);
      NoDifferencesIsEqual(grid[lo], grid[2 * pos - lo - 1]);
    }
  }

  /** In a rectangular pattern, no smudge between rows is a horizontal reflection. */
  lemma NoHorizontalSmudgeIsReflection(grid: seq<string>, pos: nat)
    requires Rectangular(grid)
    ensures CountHorizontalSmudges(grid, pos) == 0 <==> Day13Part1.IsReflection(grid, pos)
  {
    if |grid| / 2 < pos {
      if pos < |grid| {
        DifferenceRangeZero(grid, pos, pos, |grid|);
      }
    } else {
      DifferenceRangeZero(grid, pos, 0, pos);
    }
  }

  /** The smudges of the first `k` rows at column `n`. */
  function SmudgeSum(grid: seq<string>, k: nat, n: nat): nat
    requires k <= |grid|
  {
    if k == 0 then 0 else SmudgeSum(grid, k - 1, n) + CountVerticalSmudges(grid[k - 1], n)
  }

  /** A total of one smudge is one row with a single mismatched pair, the others reflecting. */
  lemma {:induction false} SingleSmudge(grid: seq<string>, k: nat, n: nat)
    requires k <= |grid|
    ensures SmudgeSum(grid, k, n) == 1 <==>
      exists i :: 0 <= i < k && CountVerticalSmudges(grid[i], n) == 1
        && forall j :: 0 <= j < k && j != i ==> CountVerticalSmudges(grid[j], n) == 0
  {
    if k > 0 {
      SingleSmudge(grid, k - 1, n);
      NoSmudgesBelow(grid, k - 1, n);
      var last := CountVerticalSmudges(grid[k - 1], n);
      if SmudgeSum(grid, k, n) == 1 {
        if last == 1 {
          assert forall j :: 0 <= j < k && j != k - 1 ==> CountVerticalSmudges(grid[j], n) == 0;
        } else {
          var i :| 0 <= i < k - 1 && CountVerticalSmudges(grid[i], n) == 1
            && forall j :: 0 <= j < k - 1 && j != i ==> CountVerticalSmudges(grid[j], n) == 0;
          assert forall j :: 0 <= j < k && j != i ==> CountVerticalSmudges(grid[j], n) == 0;
        }
      }
      if exists i :: (0 <= i < k && CountVerticalSmudges(grid[i], n) == 1
        && forall j :: 0 <= j < k && j != i ==> CountVerticalSmudges(grid[j], n) == 0)
      {
        var i :| 0 <= i < k && CountVerticalSmudges(grid[i], n) == 1
          && forall j :: 0 <= j < k && j != i ==> CountVerticalSmudges(grid[j], n) == 0;
        if i == k - 1 {
          assert forall j :: 0 <= j < k - 1 ==> CountVerticalSmudges(grid[j], n) == 0;
        } else {
          assert last == 0;
        }
      }
    }
  }

  lemma {:induction false} NoSmudgesBelow(grid: seq<string>, k: nat, n: nat)
    requires k <= |grid|
    ensures SmudgeSum(grid, k, n) == 0 <==> forall j :: 0 <= j < k ==> CountVerticalSmudges(grid[j], n) == 0
  {
    if k > 0 {
      NoSmudgesBelow(grid, k - 1, n);
    }
  }

  /** The fold over the rows of `process_pattern`: every row adds its smudges at each
      column `1..` of a vector as wide as the first row. */
  method VerticalTotals(grid: seq<string>) returns (totals: seq<nat>)
    requires grid != []
    ensures |totals| == |grid[0]|
    ensures forall n :: 1 <= n < |totals| ==> totals[n] == SmudgeSum(grid, |grid|, n)
  {
    var width := |grid[0]|;
    var acc := new nat[width](_ => 0);
    var k := 0;
    while k < |grid|
      invariant 0 <= k <= |grid|
      invariant forall n :: 1 <= n < width ==> acc[n] == SmudgeSum(grid, k, n)
    {
      var line := grid[k];
      var n := 1;
      while n < width
        invariant 1 <= n <= width || width == 0
        invariant forall m :: 1 <= m < width ==>
          acc[m] == if m < n then SmudgeSum(grid, k + 1, m) else SmudgeSum(grid, k, m)
      {
        acc[n] := acc[n] + CountVerticalSmudges(line, n);
        n := n + 1;
      }
      k := k + 1;
    }
    totals := acc[..];
  }

  /** The columns from `n` on whose total is exactly one smudge. */
  function OneSmudgeFrom(totals: seq<nat>, n: nat): seq<nat>
    decreases |totals| - n
  {
    if n >= |totals| then [] else (if totals[n] == 1 then [n] else []) + OneSmudgeFrom(totals, n + 1)
  }

  /** The vertical lines with exactly one smudge over all rows. */
  function VerticalLines(grid: seq<string>): (r: seq<nat>)
    requires grid != []
    ensures forall x :: x in r <==> 1 <= x < |grid[0]| && SmudgeSum(grid, |grid|, x) == 1
    decreases |grid[0]|
  {
    OneSmudgeMembers(grid, 1);
    OneSmudgeFromGrid(grid, 1)
  }

  function OneSmudgeFromGrid(grid: seq<string>, n: nat): seq<nat>
    requires grid != []
    decreases |grid[0]| - n
  {
    if n >= |grid[0]| then []
    else (if SmudgeSum(grid, |grid|, n) == 1 then [n] else []) + OneSmudgeFromGrid(grid, n + 1)
  }

  /** The columns selected from `n` on are those of one smudge in total. */
  lemma {:induction false} OneSmudgeMembers(grid: seq<string>, n: nat)
    requires grid != []
    ensures forall x :: x in OneSmudgeFromGrid(grid, n) <==> n <= x < |grid[0]| && SmudgeSum(grid, |grid|, x) == 1
    decreases |grid[0]| - n
  {
    if n < |grid[0]| {
      OneSmudgeMembers(grid, n + 1);
    }
  }

  lemma {:induction false} SelectionAgrees(grid: seq<string>, totals: seq<nat>, n: nat)
    requires grid != [] && 1 <= n && |totals| == |grid[0]|
    requires forall m :: 1 <= m < |totals| ==> totals[m] == SmudgeSum(grid, |grid|, m)
    ensures OneSmudgeFrom(totals, n) == OneSmudgeFromGrid(grid, n)
    decreases |totals| - n
  {
    if n < |totals| {
      assert totals[n] == SmudgeSum(grid, |grid|, n);
      SelectionAgrees(grid, totals, n + 1);
    }
  }

  /** The horizontal lines from `pos` on with exactly one smudge. */
  function HorizontalFrom(grid: seq<string>, pos: nat): (r: seq<nat>)
    ensures forall x :: x in r <==> pos <= x < |grid| && CountHorizontalSmudges(grid, x) == 1
    decreases |grid| - pos
  {
    if pos >= |grid| then []
    else (if CountHorizontalSmudges(grid, pos) == 1 then [pos] else []) + HorizontalFrom(grid, pos + 1)
  }

  function HorizontalLines(grid: seq<string>): (r: seq<nat>)
    ensures forall x :: x in r <==> 1 <= x < |grid| && CountHorizontalSmudges(grid, x) == 1
  {
    HorizontalFrom(grid, 1)
  }

  /** `process_pattern`: the vertical lines with one smudge plus a hundred times the
      horizontal ones; none for a pattern without a row. */
  function Score(pattern: string): (r: Option<nat>)
    ensures r.None? <==> Lines(pattern) == []
  {
    var grid := Lines(pattern);
    if grid == [] then None
    else Some(Day13Part1.Sum(VerticalLines(grid)) + 100 * Day13Part1.Sum(HorizontalLines(grid)))
  }

  /** The fold of `process_pattern` over a vector of per-column totals computes the score. */
  method ProcessPattern(pattern: string) returns (r: Option<nat>)
    ensures r == Score(pattern)
  {
    var grid := Lines(pattern);
    if grid == [] {
      return None;
    }
    var totals := VerticalTotals(grid);
    var vertical := OneSmudgeFrom(totals, 1);
    SelectionAgrees(grid, totals, 1);
    var horizontal := HorizontalLines(grid);
    return Some(Day13Part1.Sum(vertical) + 100 * Day13Part1.Sum(horizontal));
  }

  function AddTo(total: nat, rest: Option<nat>): Option<nat>
  {
    if rest.Some? then Some(total + rest.value) else None
  }

  /** The `Option` sum of the scores: defined exactly when every score is. */
  function SumScores(scores: seq<Option<nat>>): (r: Option<nat>)
    ensures r.Some? <==> forall i :: 0 <= i < |scores| ==> scores[i].Some?
  {
    if scores == [] then Some(0)
    else
      assert forall i :: 1 <= i < |scores| ==> scores[i] == scores[1..][i - 1];
      if scores[0].None? then None else AddTo(scores[0].value, SumScores(scores[1..]))
  }

  function Scores(patterns: seq<string>): (r: seq<Option<nat>>)
    ensures |r| == |patterns| && forall i :: 0 <= i < |patterns| ==> r[i] == Score(patterns[i])
  {
    seq(|patterns|, i requires 0 <= i < |patterns| => Score(patterns[i]))
  }

  /** The sum of the scores, defined when every pattern has a score. */
  function SolvePatterns(patterns: seq<string>): (r: Option<nat>)
    ensures r.Some? <==> forall i :: 0 <= i < |patterns| ==> Lines(patterns[i]) != []
  {
    SumScores(Scores(patterns))
  }

  /** `solve`: the sum over the patterns separated by a blank line; none when a pattern
      has no row. */
  function Solve(input: string): (r: Option<nat>)
    ensures r.Some? <==> forall i :: 0 <= i < |Day13Part1.Patterns(input)| ==> Lines(Day13Part1.Patterns(input)[i]) != []
  {
    SolvePatterns(Day13Part1.Patterns(input))
  }
}
