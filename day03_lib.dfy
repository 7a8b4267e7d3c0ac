/** Day 3: an engine schematic. Part 1 sums the numbers with a symbol in the box around
    them; part 2 sums, over the '*' cells with exactly two numbers around them, the
    products of those two numbers. Each line is seen with its neighbours above and below,
    an empty line standing in above the first line and below the last. */
module Day03 {
  import opened Text

  /** A half-open range of positions `start..end` of one line. */
  datatype Range = Range(start: nat, end: nat)

  /** `is_symbol`: neither a digit nor '.'. */
  predicate IsSymbol(c: char) { !IsDigit(c) && c != '.' }

  /** The first digit at or after `pos`. */
  function NextDigit(line: string, pos: nat): (r: Option<nat>)
    requires pos <= |line|
    ensures r.Some? ==> pos <= r.value < |line| && IsDigit(line[r.value])
    ensures r.Some? ==> forall i :: pos <= i < r.value ==> !IsDigit(line[i])
    ensures r.None? ==> forall i :: pos <= i < |line| ==> !IsDigit(line[i])
    decreases |line| - pos
  {
    if pos == |line| then None
    else if IsDigit(line[pos]) then Some(pos)
    else NextDigit(line, pos + 1)
  }

  /** The end of the run of digits starting at `start`: the first non-digit, or the end
      of the line. */
  function RunEnd(line: string, start: nat): (e: nat)
    requires start <= |line|
    ensures start <= e <= |line|
    ensures forall i :: start <= i < e ==> IsDigit(line[i])
    ensures e < |line| ==> !IsDigit(line[e])
    decreases |line| - start
  {
    if start == |line| || !IsDigit(line[start]) then start else RunEnd(line, start + 1)
  }

  /** The ranges `find_number_ranges` yields once it has reached `pos`. */
  function RangesFrom(line: string, pos: nat): seq<Range>
    requires pos <= |line|
    decreases |line| - pos
  {
    match NextDigit(line, pos)
    case None => []
    case Some(s) =>
      var e := RunEnd(line, s);
      [Range(s, e)] + RangesFrom(line, e)
  }

  /** A maximal run of digits of `line`. */
  predicate IsNumberRun(line: string, r: Range)
  {
    r.start < r.end <= |line| &&
    (forall i :: r.start <= i < r.end ==> IsDigit(line[i])) &&
    (r.start == 0 || !IsDigit(line[r.start - 1])) &&
    (r.end == |line| || !IsDigit(line[r.end]))
  }

  /** The ranges after `pos` are maximal runs of digits, in increasing order with a gap
      between neighbours, and every digit after `pos` lies in one of them. */
  lemma RangesFromAreRuns(line: string, pos: nat)
    requires pos <= |line|
    requires pos == 0 || pos == |line| || !IsDigit(line[pos - 1]) || !IsDigit(line[pos])
    ensures forall k :: 0 <= k < |RangesFrom(line, pos)| ==>
      pos <= RangesFrom(line, pos)[k].start && IsNumberRun(line, RangesFrom(line, pos)[k])
    ensures forall k :: 0 <= k < |RangesFrom(line, pos)| - 1 ==>
      RangesFrom(line, pos)[k].end < RangesFrom(line, pos)[k + 1].start
    ensures forall i :: pos <= i < |line| && IsDigit(line[i]) ==>
      exists k :: 0 <= k < |RangesFrom(line, pos)| &&
        RangesFrom(line, pos)[k].start <= i < RangesFrom(line, pos)[k].end
  {
    RangesFromRuns(line, pos);
    RangesFromIncreasing(line, pos);
    RangesFromCover(line, pos);
  }

  lemma {:induction false} RangesFromRuns(line: string, pos: nat)
    requires pos <= |line|
    requires pos == 0 || pos == |line| || !IsDigit(line[pos - 1]) || !IsDigit(line[pos])
    ensures forall k :: 0 <= k < |RangesFrom(line, pos)| ==>
      pos <= RangesFrom(line, pos)[k].start && IsNumberRun(line, RangesFrom(line, pos)[k])
    decreases |line| - pos
  {
    match NextDigit(line, pos)
    case None =>
    case Some(s) =>
      var e := RunEnd(line, s);
      assert s == pos || !IsDigit(line[s - 1]);
      RangesFromRuns(line, e);
      var rs, rest := RangesFrom(line, pos), RangesFrom(line, e);
      assert rs == [Range(s, e)] + rest;
      assert IsNumberRun(line, Range(s, e));
      forall k | 0 <= k < |rs| ensures pos <= rs[k].start && IsNumberRun(line, rs[k]) {
        if k > 0 { assert rs[k] == rest[k - 1]; }
      }
  }

  lemma {:induction false} RangesFromIncreasing(line: string, pos: nat)
    requires pos <= |line|
    requires pos == 0 || pos == |line| || !IsDigit(line[pos - 1]) || !IsDigit(line[pos])
    ensures forall k :: 0 <= k < |RangesFrom(line, pos)| - 1 ==>
      RangesFrom(line, pos)[k].end < RangesFrom(line, pos)[k + 1].start
    decreases |line| - pos
  {
    match NextDigit(line, pos)
    case None =>
    case Some(s) =>
      var e := RunEnd(line, s);
      RangesFromIncreasing(line, e);
      var rs, rest := RangesFrom(line, pos), RangesFrom(line, e);
      assert rs == [Range(s, e)] + rest;
      if |rest| > 0 {
        RangesFromRuns(line, e);
        assert rest[0].start > e by { assert !IsDigit(line[e]) || e == |line|; }
      }
      forall k | 0 <= k < |rs| - 1 ensures rs[k].end < rs[k + 1].start {
        if k > 0 { assert rs[k] == rest[k - 1] && rs[k + 1] == rest[k]; }
      }
  }

  lemma {:induction false} RangesFromCover(line: string, pos: nat)
    requires pos <= |line|
    ensures forall i :: pos <= i < |line| && IsDigit(line[i]) ==>
      exists k :: 0 <= k < |RangesFrom(line, pos)| &&
        RangesFrom(line, pos)[k].start <= i < RangesFrom(line, pos)[k].end
    decreases |line| - pos
  {
    match NextDigit(line, pos)
    case None =>
    case Some(s) =>
      var e := RunEnd(line, s);
      RangesFromCover(line, e);
      var rs, rest := RangesFrom(line, pos), RangesFrom(line, e);
      assert rs == [Range(s, e)] + rest;
      forall i | pos <= i < |line| && IsDigit(line[i])
        ensures exists k :: 0 <= k < |rs| && rs[k].start <= i < rs[k].end
      {
        if i < e {
          assert s <= i;
          assert rs[0] == Range(s, e);
        } else {
          var k :| 0 <= k < |rest| && rest[k].start <= i < rest[k].end;
          assert rs[k + 1] == rest[k];
        }
      }
      assert RangesFrom(line, pos) == rs;
      assert forall i :: pos <= i < |line| && IsDigit(line[i]) ==>
        exists k :: 0 <= k < |rs| && rs[k].start <= i < rs[k].end;
  }

  /** `find_number_ranges`: a scan advancing `pos` from run to run. */
  method FindNumberRanges(line: string) returns (ranges: seq<Range>)
    ensures ranges == RangesFrom(line, 0)
  {
    ranges := [];
    var pos := 0;
    while true
      invariant pos <= |line|
      invariant ranges + RangesFrom(line, pos) == RangesFrom(line, 0)
      decreases |line| - pos
    {
      var d := NextDigit(line, pos);
      if d.None? {
        assert RangesFrom(line, pos) == [];
        return;
      }
      var start := d.value;
      pos := RunEnd(line, start);
      ranges := ranges + [Range(start, pos)];
    }
  }

  /** The positions of '*' at or after `pos`, in order. */
  function GearsFrom(line: string, pos: nat): seq<nat>
    requires pos <= |line|
    decreases |line| - pos
  {
    if pos == |line| then []
    else if line[pos] == '*' then [pos] + GearsFrom(line, pos + 1)
    else GearsFrom(line, pos + 1)
  }

  /** The positions hold '*', increase strictly, and include every '*' after `pos`. */
  lemma {:induction false} GearsFromSpec(line: string, pos: nat)
    requires pos <= |line|
    ensures forall k :: 0 <= k < |GearsFrom(line, pos)| ==>
      pos <= GearsFrom(line, pos)[k] < |line| && line[GearsFrom(line, pos)[k]] == '*'
    ensures forall k :: 0 <= k < |GearsFrom(line, pos)| - 1 ==> GearsFrom(line, pos)[k] < GearsFrom(line, pos)[k + 1]
    ensures forall i :: pos <= i < |line| && line[i] == '*' ==> i in GearsFrom(line, pos)
    decreases |line| - pos
  {
    if pos < |line| {
      GearsFromSpec(line, pos + 1);
      var rest := GearsFrom(line, pos + 1);
      if line[pos] == '*' {
        var r := [pos] + rest;
        assert GearsFrom(line, pos) == r;
        assert forall k :: 0 < k < |r| ==> r[k] == rest[k - 1];
      }
    }
  }

  /** `find_gear_positions`: every '*' of the line, left to right. */
  method FindGearPositions(line: string) returns (gears: seq<nat>)
    ensures gears == GearsFrom(line, 0)
  {
    gears := [];
    var pos := 0;
    while pos < |line|
      invariant pos <= |line|
      invariant gears + GearsFrom(line, pos) == GearsFrom(line, 0)
    {
      if line[pos] == '*' {
        gears := gears + [pos];
      }
      pos := pos + 1;
    }
  }

  /** `str::get(start..end)`: the slice, or `None` when the range does not fit. */
  function Get(s: string, start: nat, end: nat): (r: Option<string>)
    ensures r.Some? <==> start <= end <= |s|
  {
    if start <= end <= |s| then Some(s[start..end]) else None
  }

  function HasSymbol(s: Option<string>): bool
  {
    match s
    case None => false
    case Some(t) => exists i :: 0 <= i < |t| && IsSymbol(t[i])
  }

  /** The columns around a number: one more on each side, cut to the current line. */
  function BoxStart(r: Range): nat { if r.start >= 1 then r.start - 1 else 0 }

  function BoxEnd(cur: string, r: Range): nat { if r.end + 1 > |cur| then |cur| else r.end + 1 }

  /** `part1_validator`: a symbol in the box, on the line above, below, or itself. */
  function Part1Valid(prev: string, cur: string, next: string, r: Range): bool
  {
    var start := BoxStart(r);
    var end := BoxEnd(cur, r);
    HasSymbol(Get(prev, start, end)) || HasSymbol(Get(next, start, end)) || HasSymbol(Get(cur, start, end))
  }

  /** A neighbouring line holds a symbol in the box columns, and is long enough for
      the box to be read from it. */
  predicate SymbolInBox(line: string, start: nat, end: nat)
  {
    start <= end <= |line| && exists c :: start <= c < end && IsSymbol(line[c])
  }

  /** A number is kept exactly when one of the three lines holds a symbol in a column
      from one before the number to one after it (within the current line). */
  lemma Part1ValidIff(prev: string, cur: string, next: string, r: Range)
    ensures Part1Valid(prev, cur, next, r) <==>
      SymbolInBox(prev, BoxStart(r), BoxEnd(cur, r)) ||
      SymbolInBox(next, BoxStart(r), BoxEnd(cur, r)) ||
      SymbolInBox(cur, BoxStart(r), BoxEnd(cur, r))
  {
    var start, end := BoxStart(r), BoxEnd(cur, r);
    forall line | line in [prev, cur, next]
      ensures HasSymbol(Get(line, start, end)) <==> SymbolInBox(line, start, end)
    {
      if start <= end <= |line| {
        var t := line[start..end];
        if HasSymbol(Get(line, start, end)) {
          var i :| 0 <= i < |t| && IsSymbol(t[i]);
          assert IsSymbol(line[start + i]);
        }
        if SymbolInBox(line, start, end) {
          var c :| start <= c < end && IsSymbol(line[c]);
          assert IsSymbol(t[c - start]);
        }
      }
    }
  }

  /** The number written in `line` over the range. */
  function NumberAt(line: string, r: Range): nat
    requires r.start <= r.end <= |line|
  {
    match ParseNat(line[r.start..r.end]) case Some(n) => n case None => 0
  }

  /** Sum of the kept numbers among `ranges`. */
  function SumValid(prev: string, cur: string, next: string, ranges: seq<Range>): nat
    requires forall k :: 0 <= k < |ranges| ==> ranges[k].start <= ranges[k].end <= |cur|
  {
    if ranges == [] then 0
    else
      (if Part1Valid(prev, cur, next, ranges[0]) then NumberAt(cur, ranges[0]) else 0)
      + SumValid(prev, cur, next, ranges[1..])
  }

  /** Every range of a line lies within it. */
  lemma RangesInLine(line: string)
    ensures forall k :: 0 <= k < |RangesFrom(line, 0)| ==>
      RangesFrom(line, 0)[k].start <= RangesFrom(line, 0)[k].end <= |line|
  {
    RangesFromAreRuns(line, 0);
  }

  function Part1Line(prev: string, cur: string, next: string): nat
  {
    RangesInLine(cur);
    SumValid(prev, cur, next, RangesFrom(cur, 0))
  }

  /** The text of a number range, being digits only, always parses. */
  lemma NumberRunParses(line: string, r: Range)
    requires IsNumberRun(line, r)
    ensures ParseNat(line[r.start..r.end]) == Some(DigitsValue(line[r.start..r.end]))
  {
  }

  /** `find_adjacent_numbers`: a number touches the gear at `g` when one of its cells is
      in column g - 1, g or g + 1. */
  predicate Adjacent(r: Range, g: nat)
  {
    r.start <= g + 1 && r.end >= g
  }

  /** Column `c` is next to, or is, the gear's column `g`. */
  predicate Near(c: int, g: nat) { g - 1 <= c <= g + 1 }

  lemma AdjacentIff(r: Range, g: nat)
    requires r.start < r.end
    ensures Adjacent(r, g) <==> exists c :: r.start <= c < r.end && Near(c, g)
  {
    if Adjacent(r, g) {
      var c := if r.start + 1 >= g then r.start else g - 1;
      assert r.start <= c < r.end && Near(c, g);
    }
  }

  /** The numbers among `ranges` touching the gear. */
  function AdjacentNumbers(line: string, ranges: seq<Range>, g: nat): (r: seq<nat>)
    requires forall k :: 0 <= k < |ranges| ==> ranges[k].start <= ranges[k].end <= |line|
    ensures |r| <= |ranges|
  {
    if ranges == [] then []
    else
      (if Adjacent(ranges[0], g) then [NumberAt(line, ranges[0])] else [])
      + AdjacentNumbers(line, ranges[1..], g)
  }

  function NumbersNear(window: string, g: nat): seq<nat>
  {
    RangesInLine(window);
    AdjacentNumbers(window, RangesFrom(window, 0), g)
  }

  /** The ratio of a gear: the product when exactly two numbers touch it. */
  function Ratio(numbers: seq<nat>): (r: Option<nat>)
    ensures r.Some? <==> |numbers| == 2
    ensures r.Some? ==> r.value == numbers[0] * numbers[1]
  {
    if |numbers| == 2 then Some(numbers[0] * numbers[1]) else None
  }

  /** The widest number the window around a gear is meant to see. */
  const MaxDigits: nat := 3

  function WindowStart(g: nat): nat { if g >= MaxDigits then g - MaxDigits else 0 }

  function WindowEnd(cur: string, g: nat): nat
  {
    if g + MaxDigits + 1 > |cur| then |cur| else g + MaxDigits + 1
  }

  /** `gear_ratio_calculator` as written: the window is sliced out of all three lines
      with `&line[start..end]`, which panics (`None` here) when a neighbouring line is
      shorter than the window, as the empty line above the first line is. */
  function GearRatioAsWritten(prev: string, cur: string, next: string, g: nat): (r: Option<Option<nat>>)
    requires g < |cur|
    ensures r.None? <==> WindowEnd(cur, g) > |prev| || WindowEnd(cur, g) > |next|
  {
    var start, end := WindowStart(g), WindowEnd(cur, g);
    if end > |prev| || end > |next| then None
    else
      Some(Ratio(NumbersNear(prev[start..end], g - start) + NumbersNear(cur[start..end], g - start)
        + NumbersNear(next[start..end], g - start)))
  }

  /** A '*' on the first line of the schematic makes part 2 panic: the line above it is
      the empty padding line. */
  lemma GearOnFirstLinePanics(cur: string, next: string, g: nat)
    requires g < |cur| && cur[g] == '*'
    ensures GearRatioAsWritten("", cur, next, g).None?
  {
  }

  /** A window slice of a line, empty when the line does not reach the window, as
      `str::get` gives in part 1. */
  function WindowOf(line: string, start: nat, end: nat): string
  {
    match Get(line, start, end) case Some(t) => t case None => ""
  }

  /** The numbers touching the gear in the windows of the three lines. */
  function GearNumbers(prev: string, cur: string, next: string, g: nat): seq<nat>
    requires g < |cur|
  {
    var start, end := WindowStart(g), WindowEnd(cur, g);
    NumbersNear(WindowOf(prev, start, end), g - start) + NumbersNear(WindowOf(cur, start, end), g - start)
      + NumbersNear(WindowOf(next, start, end), g - start)
  }

  /** `gear_ratio_calculator` with the slices taken as part 1 takes them: a missing
      neighbour line contributes no numbers. */
  function GearRatio(prev: string, cur: string, next: string, g: nat): (r: Option<nat>)
    requires g < |cur|
    ensures r.Some? <==> |GearNumbers(prev, cur, next, g)| == 2
    ensures GearRatioAsWritten(prev, cur, next, g).Some? ==> GearRatioAsWritten(prev, cur, next, g).value == r
  {
    Ratio(GearNumbers(prev, cur, next, g))
  }

  /** With the correction, a gear on the first line is judged by the numbers of its own
      line and the line below. */
  lemma GearOnFirstLineCounts(cur: string, next: string, g: nat)
    requires g < |cur|
    ensures GearRatio("", cur, next, g).Some? <==>
      (|NumbersNear(WindowOf(cur, WindowStart(g), WindowEnd(cur, g)), g - WindowStart(g))| +
       |NumbersNear(WindowOf(next, WindowStart(g), WindowEnd(cur, g)), g - WindowStart(g))| == 2)
  {
    assert WindowOf("", WindowStart(g), WindowEnd(cur, g)) == "";
    assert RangesFrom("", 0) == [];
    assert NumbersNear("", g - WindowStart(g)) == [];
  }

  function SumRatios(prev: string, cur: string, next: string, gears: seq<nat>): nat
    requires forall k :: 0 <= k < |gears| ==> gears[k] < |cur|
  {
    if gears == [] then 0
    else
      (match GearRatio(prev, cur, next, gears[0]) case Some(v) => v case None => 0)
      + SumRatios(prev, cur, next, gears[1..])
  }

  function Part2Line(prev: string, cur: string, next: string): nat
  {
    GearsFromSpec(cur, 0);
    SumRatios(prev, cur, next, GearsFrom(cur, 0))
  }

  /** `chain!([""], lines, [""]).tuple_windows()`: each line with the one above and the
      one below, an empty line beyond either edge. */
  function Windows(lines: seq<string>): (w: seq<(string, string, string)>)
    ensures |w| == |lines|
    ensures forall k :: 0 <= k < |lines| ==> w[k].1 == lines[k]
    ensures forall k :: 0 < k < |lines| ==> w[k].0 == lines[k - 1]
    ensures forall k :: 0 <= k < |lines| - 1 ==> w[k].2 == lines[k + 1]
    ensures |lines| > 0 ==> w[0].0 == "" && w[|lines| - 1].2 == ""
  {
    seq(|lines|, k requires 0 <= k < |lines| => Window(lines, k))
  }

  function Window(lines: seq<string>, k: nat): (string, string, string)
    requires k < |lines|
  {
    (if k == 0 then "" else lines[k - 1], lines[k], if k == |lines| - 1 then "" else lines[k + 1])
  }

  function SumPart1(w: seq<(string, string, string)>): (r: nat)
    ensures r == 0 <==> forall k :: 0 <= k < |w| ==> Part1Line(w[k].0, w[k].1, w[k].2) == 0
  {
    if w == [] then 0
    else
      assert forall k :: 1 <= k < |w| ==> w[k] == w[1..][k - 1];
      Part1Line(w[0].0, w[0].1, w[0].2) + SumPart1(w[1..])
  }

  function SumPart2(w: seq<(string, string, string)>): (r: nat)
    ensures r == 0 <==> forall k :: 0 <= k < |w| ==> Part2Line(w[k].0, w[k].1, w[k].2) == 0
  {
    if w == [] then 0
    else
      assert forall k :: 1 <= k < |w| ==> w[k] == w[1..][k - 1];
      Part2Line(w[0].0, w[0].1, w[0].2) + SumPart2(w[1..])
  }

  /** `solve` of part 1: the part numbers of every line, each line read with its
      neighbours; 0 exactly when no line has a part number of non-zero value. */
  function SolvePart1(input: string): (r: nat)
    ensures var w := Windows(Lines(input));
      r == 0 <==> forall k :: 0 <= k < |w| ==> Part1Line(w[k].0, w[k].1, w[k].2) == 0
  {
    SumPart1(Windows(Lines(input)))
  }

  /** `solve` of part 2, corrected at the edges: the gear ratios of every line, each line
      read with its neighbours; 0 exactly when no line has a gear of non-zero ratio. */
  function SolvePart2(input: string): (r: nat)
    ensures var w := Windows(Lines(input));
      r == 0 <==> forall k :: 0 <= k < |w| ==> Part2Line(w[k].0, w[k].1, w[k].2) == 0
  {
    SumPart2(Windows(Lines(input)))
  }
}
