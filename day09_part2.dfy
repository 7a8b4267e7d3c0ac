/** Day 9, part 2: extrapolating backwards, before the first reading. */
module Day09Part2 {
  import opened Text
  import Day09Part1

  /** `find_previous_value`: the first number, minus the previous difference when the
      differences are not all zero. */
  function PreviousValue(s: seq<int>): int
    requires |s| > 0
    decreases |s|
  {
    var d := Day09Part1.Diffs(s);
    if Day09Part1.AllZero(d) then s[0] else s[0] - PreviousValue(d)
  }

  function Negate(s: seq<int>): (r: seq<int>)
    ensures |r| == |s|
    ensures forall i :: 0 <= i < |s| ==> r[i] == -s[i]
  {
    seq(|s|, i requires 0 <= i < |s| => -s[i])
  }

  /** One difference of the reversed readings: the mirrored difference, negated. */
  lemma DiffOfReverseAt(s: seq<int>, i: nat)
    requires i + 1 < |s|
    ensures Day09Part1.Diffs(Reverse(s))[i] == Negate(Reverse(Day09Part1.Diffs(s)))[i]
  {
    ReversedDiffAt(s, i);
    NegatedDiffAt(s, i);
  }

  /** A difference of the reversed readings, by its two readings. */
  lemma ReversedDiffAt(s: seq<int>, i: nat)
    requires i + 1 < |s|
    ensures Day09Part1.Diffs(Reverse(s))[i] == s[|s| - 2 - i] - s[|s| - 1 - i]
  {
    var r := Reverse(s);
    assert r[i] == s[|s| - 1 - i];
    assert r[i + 1] == s[|s| - 2 - i];
  }

  /** The mirrored difference, negated, by its two readings. */
  lemma NegatedDiffAt(s: seq<int>, i: nat)
    requires i + 1 < |s|
    ensures Negate(Reverse(Day09Part1.Diffs(s)))[i] == s[|s| - 2 - i] - s[|s| - 1 - i]
  {
    var d := Day09Part1.Diffs(s);
    MirroredAt(d, i, |s| - 2 - i);
  }

  lemma MirroredAt(d: seq<int>, i: nat, k: nat)
    requires i < |d| && k == |d| - 1 - i
    ensures Negate(Reverse(d))[i] == -d[k]
  {
  }

  lemma DiffsOfReversePointwise(s: seq<int>, a: seq<int>, b: seq<int>)
    requires a == Day09Part1.Diffs(Reverse(s)) && b == Negate(Reverse(Day09Part1.Diffs(s)))
    ensures |a| == |b|
    ensures forall i :: 0 <= i < |a| ==> a[i] == b[i]
  {
    assert |a| == |b|;
    forall i | 0 <= i < |a| ensures a[i] == b[i] {
      DiffOfReverseAt(s, i);
    }
  }

  /** The differences of the reversed readings are the reversed differences, negated. */
  lemma DiffsOfReverse(s: seq<int>)
    ensures Day09Part1.Diffs(Reverse(s)) == Negate(Reverse(Day09Part1.Diffs(s)))
  {
    DiffsOfReversePointwise(s, Day09Part1.Diffs(Reverse(s)), Negate(Reverse(Day09Part1.Diffs(s))));
  }

  lemma DiffsOfNegate(s: seq<int>)
    ensures Day09Part1.Diffs(Negate(s)) == Negate(Day09Part1.Diffs(s))
  {
  }

  /** Extrapolation is linear: negating the readings negates the next value. */
  lemma {:induction false} NextOfNegate(s: seq<int>)
    requires |s| > 0
    ensures Day09Part1.NextValue(Negate(s)) == -Day09Part1.NextValue(s)
    decreases |s|
  {
    var d := Day09Part1.Diffs(s);
    DiffsOfNegate(s);
    assert Day09Part1.AllZero(Negate(d)) <==> Day09Part1.AllZero(d) by {
      if !Day09Part1.AllZero(d) {
        var i :| 0 <= i < |d| && d[i] != 0;
        assert Negate(d)[i] != 0;
      }
    }
    if !Day09Part1.AllZero(d) {
      NextOfNegate(d);
    }
  }

  /** Extrapolating backwards is extrapolating the reversed readings forwards. */
  lemma {:induction false} PreviousIsNextOfReverse(s: seq<int>)
    requires |s| > 0
    ensures PreviousValue(s) == Day09Part1.NextValue(Reverse(s))
    decreases |s|
  {
    var d := Day09Part1.Diffs(s);
    var rd := Reverse(d);
    DiffsOfReverse(s);
    assert Day09Part1.AllZero(Negate(rd)) <==> Day09Part1.AllZero(d) by {
      if !Day09Part1.AllZero(d) {
        var i :| 0 <= i < |d| && d[i] != 0;
        assert Negate(rd)[|d| - 1 - i] != 0;
      }
    }
    if !Day09Part1.AllZero(d) {
      PreviousIsNextOfReverse(d);
      NextOfNegate(rd);
    }
  }

  /** With a constant step the value before the first is one step back. */
  lemma ArithmeticPrevious(s: seq<int>, step: int)
    requires |s| >= 2 && forall i :: 0 <= i < |s| ==> s[i] == s[0] + i * step
    ensures PreviousValue(s) == s[0] - step
  {
    var d := Day09Part1.Diffs(s);
    forall i | 0 <= i < |d| ensures d[i] == step {
      assert d[i] == s[i + 1] - s[i];
      assert s[i + 1] == s[0] + (i + 1) * step;
      assert s[i] == s[0] + i * step;
      Day09Part1.StepDistributes(s[0], i, step);
    }
    if step != 0 {
      assert d[0] != 0;
      var dd := Day09Part1.Diffs(d);
      assert Day09Part1.AllZero(dd) by {
        forall i | 0 <= i < |dd| ensures dd[i] == 0 {
          assert dd[i] == d[i + 1] - d[i];
        }
      }
    }
  }

  function ProcessLine(line: string): (r: Option<int>)
    ensures r.None? <==> Day09Part1.ParsedNumbers(SplitWhitespace(line)) == []
  {
    var numbers := Day09Part1.ParsedNumbers(SplitWhitespace(line));
    if numbers == [] then None else Some(PreviousValue(numbers))
  }

  /** `solve`: the sum over the lines; none when some line has no number. */
  function Solve(lines: seq<string>): (r: Option<int>)
    ensures r.Some? <==> forall i :: 0 <= i < |lines| ==> ProcessLine(lines[i]).Some?
  {
    if lines == [] then Some(0)
    else match (ProcessLine(lines[0]), Solve(lines[1..]))
      case (Some(v), Some(rest)) => Some(v + rest)
      case _ =>
        assert forall i :: 1 <= i < |lines| ==> lines[i] == lines[1..][i - 1];
        None
  }
}
