/** Day 9, part 1: extrapolating a sequence of readings by repeated differences. */
module Day09Part1 {
  import opened Text

  /** The differences of neighbouring numbers (`windows(2)`), one shorter than the input. */
  function Diffs(s: seq<int>): (d: seq<int>)
    ensures |d| == if |s| == 0 then 0 else |s| - 1
    ensures forall i {:trigger d[i]} :: 0 <= i < |d| ==> d[i] == s[i + 1] - s[i]
  {
    if |s| <= 1 then [] else seq(|s| - 1, i requires 0 <= i < |s| - 1 => s[i + 1] - s[i])
  }

  predicate AllZero(s: seq<int>)
  {
    forall i :: 0 <= i < |s| ==> s[i] == 0
  }

  /** `find_next_value`: the last number, plus the next difference when the differences
      are not all zero. */
  function NextValue(s: seq<int>): int
    requires |s| > 0
    decreases |s|
  {
    var d := Diffs(s);
    if AllZero(d) then s[|s| - 1] else s[|s| - 1] + NextValue(d)
  }

  /** A constant sequence continues with the same number. */
  lemma {:induction false} ConstantNext(s: seq<int>)
    requires |s| > 0 && forall i :: 0 <= i < |s| ==> s[i] == s[0]
    ensures NextValue(s) == s[0]
  {
    var d := Diffs(s);
    assert AllZero(d) by {
      forall i | 0 <= i < |d| ensures d[i] == 0 {
        assert d[i] == s[i + 1] - s[i];
      }
    }
  }

  lemma StepDistributes(base: int, i: int, step: int)
    ensures (base + (i + 1) * step) - (base + i * step) == step
    ensures base + i * step + step == base + (i + 1) * step
  {
  }

  /** A sequence with constant step `step` continues with the next step; a single number
      counts as constant. */
  lemma {:induction false} ArithmeticNext(s: seq<int>, step: int)
    requires |s| >= 2 && forall i :: 0 <= i < |s| ==> s[i] == s[0] + i * step
    ensures NextValue(s) == s[0] + |s| * step
  {
    var d := Diffs(s);
    forall i | 0 <= i < |d| ensures d[i] == step {
      assert d[i] == s[i + 1] - s[i];
      assert s[i + 1] == s[0] + (i + 1) * step;
      assert s[i] == s[0] + i * step;
      StepDistributes(s[0], i, step);
    }
    StepDistributes(s[0], |s| - 1, step);
    if step != 0 {
      assert d[0] != 0;
      ConstantNext(d);
    }
  }

  /** The numbers of a line that parse as signed integers, in order; the integers are
      unbounded, so no token is dropped for being out of the `i32` range. */
  function ParsedNumbers(tokens: seq<string>): (r: seq<int>)
    ensures |r| <= |tokens|
  {
    if tokens == [] then []
    else (match ParseInt(tokens[0]) case Some(v) => [v] case None => []) + ParsedNumbers(tokens[1..])
  }

  /** `process_line`: none for a line without numbers, where the source panics. */
  function ProcessLine(line: string): (r: Option<int>)
    ensures r.None? <==> ParsedNumbers(SplitWhitespace(line)) == []
  {
    var numbers := ParsedNumbers(SplitWhitespace(line));
    if numbers == [] then None else Some(NextValue(numbers))
  }

  /** `solve`: the sum over the lines; none when some line has no number. */
  function Solve(lines: seq<string>): (r: Option<int>)
    ensures r.Some? <==> forall i :: 0 <= i < |lines| ==> ProcessLine(lines[i]).Some?
  {
    if lines == [] then Some(0)
    else match (ProcessLine(lines[0]), Solve(lines[1..]))
      case (Some(v), Some(rest)) => Some(v + rest)
      case _ =>
        assert forall i :: 1 <= i < |lines| ==> lines[i] == lines[1..][i - 1];
        None
  }
}
