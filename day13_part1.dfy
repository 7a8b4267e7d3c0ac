/** Day 13, part 1: lines of reflection in patterns of ash and rocks. A vertical line at
    `pos` mirrors every row of the pattern between columns `pos - 1` and `pos`; a horizontal
    one mirrors the rows themselves. */
module Day13Part1 {
  import opened Text

  /** `is_vertical_reflection` and `is_horizontal_reflection`, which share their logic: the
      mirrored pairs around `pos` are compared on the shorter side of `pos`. */
  predicate IsReflection<T(==)>(s: seq<T>, pos: nat)
  {
    if |s| / 2 < pos then forall n :: pos <= n < |s| ==> s[n] == s[2 * pos - n - 1]
    else forall n :: 0 <= n < pos ==> s[n] == s[2 * pos - n - 1]
  }

  /** Every pair of entries at the same distance from the line, one on each side, agree. */
  predicate MirrorsAt<T(==)>(s: seq<T>, pos: nat)
  {
    forall i, j :: 0 <= i < pos <= j < |s| && i + j == 2 * pos - 1 ==> s[i] == s[j]
  }

  /** Comparing one side is comparing every mirrored pair. */
  lemma ReflectionIsMirror<T>(s: seq<T>, pos: nat)
    ensures IsReflection(s, pos) <==> MirrorsAt(s, pos)
  {
    if |s| / 2 < pos {
      if IsReflection(s, pos) {
        forall i, j | 0 <= i < pos <= j < |s| && i + j == 2 * pos - 1 ensures s[i] == s[j] {
          assert s[j] == s[2 * pos - j - 1];
        }
      }
      if MirrorsAt(s, pos) {
        forall n | pos <= n < |s| ensures s[n] == s[2 * pos - n - 1] {
          var i := 2 * pos - n - 1;
          assert 0 <= i < pos && i + n == 2 * pos - 1;
        }
      }
    } else {
      if IsReflection(s, pos) {
        forall i, j | 0 <= i < pos <= j < |s| && i + j == 2 * pos - 1 ensures s[i] == s[j] {
          assert s[i] == s[2 * pos - i - 1];
        }
      }
      if MirrorsAt(s, pos) {
        forall n | 0 <= n < pos ensures s[n] == s[2 * pos - n - 1] {
          var j := 2 * pos - n - 1;
          assert pos <= j < |s| && n + j == 2 * pos - 1;
        }
      }
    }
  }

  lemma MirrorOfReverse<T>(s: seq<T>, pos: nat)
    requires pos <= |s| && MirrorsAt(s, pos)
    ensures MirrorsAt(Reverse(s), |s| - pos)
  {
    var r, q := Reverse(s), |s| - pos;
    forall i, j | 0 <= i < q <= j < |r| && i + j == 2 * q - 1 ensures r[i] == r[j] {
      MirroredPair(s, pos, |s| - 1 - j, |s| - 1 - i);
    }
  }

  lemma MirroredPair<T>(s: seq<T>, pos: nat, a: nat, b: nat)
    requires MirrorsAt(s, pos)
    requires a < pos <= b < |s| && a + b == 2 * pos - 1
    ensures Reverse(s)[|s| - 1 - b] == Reverse(s)[|s| - 1 - a]
  {
    assert s[a] == s[b];
  }

  /** Flipping a pattern moves its line of reflection to the mirrored position. */
  lemma ReflectionOfReverse<T>(s: seq<T>, pos: nat)
    requires pos <= |s|
    ensures IsReflection(s, pos) <==> IsReflection(Reverse(s), |s| - pos)
  {
    ReflectionIsMirror(s, pos);
    ReflectionIsMirror(Reverse(s), |s| - pos);
    if MirrorsAt(s, pos) {
      MirrorOfReverse(s, pos);
    }
    var q := |s| - pos;
    if MirrorsAt(Reverse(s), q) {
      MirrorOfReverse(Reverse(s), q);
      ReverseReverse(s);
      assert |Reverse(s)| - q == pos;
      assert MirrorsAt(s, pos);
    }
  }

  /** The fold over the rows, keeping the candidate columns that reflect the row. */
  function KeepReflecting(rows: seq<string>, candidates: seq<nat>): (r: seq<nat>)
    ensures forall x :: x in r <==> x in candidates && forall k :: 0 <= k < |rows| ==> IsReflection(rows[k], x)
    decreases |rows|
  {
    if rows == [] then candidates
    else
      var kept := KeepReflecting(rows[1..], candidates);
      assert forall k :: 1 <= k < |rows| ==> rows[k] == rows[1..][k - 1];
      Filter(rows[0], kept)
  }

  function Filter(line: string, candidates: seq<nat>): (r: seq<nat>)
    ensures forall x :: x in r <==> x in candidates && IsReflection(line, x)
  {
    if candidates == [] then []
    else (if IsReflection(line, candidates[0]) then [candidates[0]] else []) + Filter(line, candidates[1..])
  }

  /** `1..n`. */
  function Range(lo: nat, hi: nat): (r: seq<nat>)
    ensures forall x :: x in r <==> lo <= x < hi
    decreases hi - lo
  {
    if lo >= hi then [] else [lo] + Range(lo + 1, hi)
  }

  function HorizontalFrom(grid: seq<string>, pos: nat): (r: seq<nat>)
    requires 1 <= pos
    ensures forall x :: x in r <==> pos <= x < |grid| && IsReflection(grid, x)
    decreases |grid| - pos
  {
    if pos >= |grid| then []
    else (if IsReflection(grid, pos) then [pos] else []) + HorizontalFrom(grid, pos + 1)
  }

  function Sum(s: seq<nat>): nat
  {
    if s == [] then 0 else s[0] + Sum(s[1..])
  }

  /** The columns that reflect every row. */
  function VerticalLines(grid: seq<string>): (r: seq<nat>)
    requires grid != []
    ensures forall x :: x in r <==>
      1 <= x < |grid[0]| && forall k :: 0 <= k < |grid| ==> IsReflection(grid[k], x)
  {
    KeepReflecting(grid, Range(1, |grid[0]|))
  }

  /** The rows between which the pattern reflects. */
  function HorizontalLines(grid: seq<string>): (r: seq<nat>)
    ensures forall x :: x in r <==> 1 <= x < |grid| && IsReflection(grid, x)
  {
    HorizontalFrom(grid, 1)
  }

  /** `process_pattern`: the sum of the vertical lines plus a hundred times the sum of the
      horizontal ones; none for a pattern without a row. */
  function ProcessPattern(pattern: string): (r: Option<nat>)
    ensures r.None? <==> Lines(pattern) == []
    ensures r.Some? ==>
      r.value == Sum(VerticalLines(Lines(pattern))) + 100 * Sum(HorizontalLines(Lines(pattern)))
  {
    var grid := Lines(pattern);
    if grid == [] then None
    else Some(Sum(VerticalLines(grid)) + 100 * Sum(HorizontalLines(grid)))
  }

  function Patterns(input: string): seq<string>
  {
    Split(input, "\n\n")
  }

  /** `solve`: the sum over the patterns separated by a blank line. */
  function SolvePatterns(patterns: seq<string>): (r: Option<nat>)
    ensures r.Some? <==> forall i :: 0 <= i < |patterns| ==> ProcessPattern(patterns[i]).Some?
  {
    if patterns == [] then Some(0)
    else match (ProcessPattern(patterns[0]), SolvePatterns(patterns[1..]))
      case (Some(v), Some(rest)) => Some(v + rest)
      case _ =>
        assert forall i :: 1 <= i < |patterns| ==> patterns[i] == patterns[1..][i - 1];
        None
  }

  /** `solve`: a panic exactly when some pattern has no row, where `map[0]` is out of bounds;
      a pattern with rows but no line of reflection scores 0. */
  function Solve(input: string): (r: Option<nat>)
    ensures r.Some? <==> forall i :: 0 <= i < |Patterns(input)| ==> ProcessPattern(Patterns(input)[i]).Some?
  {
    SolvePatterns(Patterns(input))
  }
}
