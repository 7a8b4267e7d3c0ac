/** Day 1, part 1: a line's calibration value is its first and last decimal digit read as
    a two-digit number; lines without a digit are skipped and the values are summed. */
module Day01Part1 {
  import opened Text

  /** Index of the first digit of `line`, as `chars().find_map(to_digit)` finds it. */
  function FirstDigitIndex(line: string): (r: Option<nat>)
    ensures r.Some? ==> r.value < |line| && IsDigit(line[r.value])
    ensures r.Some? ==> forall j :: 0 <= j < r.value ==> !IsDigit(line[j])
    ensures r.None? <==> forall j :: 0 <= j < |line| ==> !IsDigit(line[j])
  {
    if line == [] then None
    else if IsDigit(line[0]) then Some(0)
    else match FirstDigitIndex(line[1..])
      case None => None
      case Some(k) => Some(k + 1)
  }

  /** Index of the last digit of `line`, as the reversed scan finds it. */
  function LastDigitIndex(line: string): (r: Option<nat>)
    ensures r.Some? ==> r.value < |line| && IsDigit(line[r.value])
    ensures r.Some? ==> forall j :: r.value < j < |line| ==> !IsDigit(line[j])
    ensures r.None? <==> forall j :: 0 <= j < |line| ==> !IsDigit(line[j])
  {
    if line == [] then None
    else if IsDigit(line[|line| - 1]) then Some(|line| - 1)
    else LastDigitIndex(line[..|line| - 1])
  }

  /** The calibration value of one line, `None` when the line has no digit. */
  function CalibrationValue(line: string): (r: Option<nat>)
    ensures r.None? <==> forall j :: 0 <= j < |line| ==> !IsDigit(line[j])
    ensures r.Some? ==> r.value < 100
  {
    match (FirstDigitIndex(line), LastDigitIndex(line))
    case (Some(f), Some(l)) => Some(10 * DigitValue(line[f]) + DigitValue(line[l]))
    case _ => None
  }

  /** The sum over lines of the values of the lines that have one. */
  function Total(lines: seq<string>): (r: nat)
    ensures r <= 99 * |lines|
  {
    if lines == [] then 0
    else (match CalibrationValue(lines[0]) case Some(v) => v case None => 0) + Total(lines[1..])
  }

  /** `solve`: the calibration values of the input's lines added up. */
  function Solve(input: string): (r: nat)
    ensures r <= 99 * |Lines(input)|
  {
    Total(Lines(input))
  }

  /** The total of two runs of lines is the sum of their totals, so the lines may be summed
      in any grouping, as the parallel iterator does. */
  lemma {:induction false} TotalAppend(a: seq<string>, b: seq<string>)
    ensures Total(a + b) == Total(a) + Total(b)
  {
    if a != [] {
      var ab := a + b;
      assert ab[0] == a[0] && ab[1..] == a[1..] + b;
      TotalAppend(a[1..], b);
    } else {
      assert a + b == b;
    }
  }

  /** The value is built from the leftmost and the rightmost digit of the line. */
  lemma ValueOfDigits(line: string, f: nat, l: nat)
    requires f <= l < |line| && IsDigit(line[f]) && IsDigit(line[l])
    requires forall j :: 0 <= j < f ==> !IsDigit(line[j])
    requires forall j :: l < j < |line| ==> !IsDigit(line[j])
    ensures CalibrationValue(line) == Some(10 * DigitValue(line[f]) + DigitValue(line[l]))
  {
    assert FirstDigitIndex(line) == Some(f);
    assert LastDigitIndex(line) == Some(l);
  }

  /** A line with a single digit uses that digit twice. */
  lemma SingleDigitTwice(line: string, k: nat)
    requires k < |line| && IsDigit(line[k])
    requires forall j :: 0 <= j < |line| && j != k ==> !IsDigit(line[j])
    ensures CalibrationValue(line) == Some(11 * DigitValue(line[k]))
  {
    ValueOfDigits(line, k, k);
  }

  /** Appending a line without a digit leaves the total unchanged. */
  lemma {:induction false} DigitlessLineAddsNothing(lines: seq<string>, line: string)
    requires forall j :: 0 <= j < |line| ==> !IsDigit(line[j])
    ensures Total(lines + [line]) == Total(lines)
  {
    if lines == [] {
      assert Total([line]) == 0 + Total([]);
    } else {
      assert (lines + [line])[1..] == lines[1..] + [line];
      DigitlessLineAddsNothing(lines[1..], line);
    }
  }
}
