/** Day 10, part 2: the tiles enclosed by the loop, counted along each anti-diagonal by the
    parity of loop crossings before them. */
module Day10Part2 {
  import opened Text
  import opened Day10Part1

  /** The pipe hidden under 'S', from the sides the two walkers came in from; none for a
      pair the table does not list (`unreachable!`). */
  function StartPipe(from1: Direction, from2: Direction): Option<char>
  {
    match (from1, from2)
    case (North, South) => Some('|')
    case (South, North) => Some('|')
    case (East, West) => Some('-')
    case (West, East) => Some('-')
    case (South, West) => Some('L')
    case (West, South) => Some('L')
    case (North, West) => Some('F')
    case (West, North) => Some('F')
    case (South, East) => Some('J')
    case (East, South) => Some('J')
    case (North, East) => Some('7')
    case (East, North) => Some('7')
    case _ => None
  }

  /** The inferred pipe opens exactly towards the two neighbours the walkers stand on. */
  lemma StartPipeOpenings(from1: Direction, from2: Direction)
    requires from1 != from2
    ensures StartPipe(from1, from2).Some?
    ensures Openings(StartPipe(from1, from2).value) == {Opposite(from1), Opposite(from2)}
  {
  }

  /** The two walkers leaving the start stand on different tiles. */
  lemma StartWalkersApart(grid: seq<string>, row: nat, column: nat)
    requires StartDirections(grid, row, column).Some?
    ensures !SameTile(StartDirections(grid, row, column).value)
  {
    StartDirectionsConnect(grid, row, column);
  }

  function TilesOf(pair: (Location, Location)): set<(nat, nat)>
  {
    {(pair.0.row, pair.0.column), (pair.1.row, pair.1.column)}
  }

  /** The tiles of both walkers over the first `m` joint steps and after them. */
  function Tiles(grid: seq<string>, pair: (Location, Location), m: nat): set<(nat, nat)>
  {
    (if m == 0 then {} else Tiles(grid, pair, m - 1))
    + (match Advance(grid, pair, m) case Some(p) => TilesOf(p) case None => {})
  }

  /** The tiles of both walkers before joint step `n`. */
  function TilesBefore(grid: seq<string>, pair: (Location, Location), n: nat): set<(nat, nat)>
  {
    if n == 0 then {} else Tiles(grid, pair, n - 1)
  }

  /** Adding both walkers' tiles at step `n` to the set. */
  lemma Visit(grid: seq<string>, pair: (Location, Location), n: nat, locations: (Location, Location),
              start: (nat, nat), pipe: set<(nat, nat)>)
    requires Advance(grid, pair, n) == Some(locations)
    requires pipe == {start} + TilesBefore(grid, pair, n)
    ensures pipe + TilesOf(locations) == {start} + TilesBefore(grid, pair, n + 1)
  {
    assert Tiles(grid, pair, n) == TilesBefore(grid, pair, n) + TilesOf(locations);
  }

  /** Adding the meeting tile at step `n` to the set. */
  lemma Close(grid: seq<string>, pair: (Location, Location), n: nat, locations: (Location, Location),
              start: (nat, nat), pipe: set<(nat, nat)>)
    requires Advance(grid, pair, n) == Some(locations) && SameTile(locations)
    requires pipe == {start} + TilesBefore(grid, pair, n)
    ensures pipe + {(locations.0.row, locations.0.column)} == {start} + Tiles(grid, pair, n)
  {
    assert TilesOf(locations) == {(locations.0.row, locations.0.column)};
    assert Tiles(grid, pair, n) == TilesBefore(grid, pair, n) + TilesOf(locations);
  }

  lemma ApartExtend(grid: seq<string>, pair: (Location, Location), n: nat, locations: (Location, Location))
    requires forall k :: 1 <= k <= n ==> Apart(grid, pair, k)
    requires Advance(grid, pair, n + 1) == Some(locations) && !SameTile(locations)
    ensures forall k :: 1 <= k <= n + 1 ==> Apart(grid, pair, k)
  {
  }

  lemma PanicAt(grid: seq<string>, pair: (Location, Location), fuel: nat, n: nat)
    requires n < fuel && forall k :: 1 <= k <= n ==> Apart(grid, pair, k)
    requires Advance(grid, pair, n).Some? && StepBoth(grid, Advance(grid, pair, n).value).None?
    ensures Describes(grid, pair, fuel, Panicked)
  {
    AdvanceStep(grid, pair, n, Advance(grid, pair, n).value);
  }

  lemma MeetAt(grid: seq<string>, pair: (Location, Location), fuel: nat, n: nat, locations: (Location, Location))
    requires n < fuel && forall k :: 1 <= k <= n ==> Apart(grid, pair, k)
    requires Advance(grid, pair, n + 1) == Some(locations) && SameTile(locations)
    ensures Describes(grid, pair, fuel, Farthest(n + 2))
  {
  }

  /** The `while` loop that walks both walkers round the loop, adding every tile they stand
      on to the pipe set, allowed `fuel` joint steps. */
  method TraceLoop(grid: seq<string>, start: (nat, nat), pair: (Location, Location), fuel: nat)
    returns (pipe: set<(nat, nat)>, meeting: Outcome)
    requires !SameTile(pair)
    ensures Describes(grid, pair, fuel, meeting)
    ensures meeting.Farthest? ==> pipe == {start} + Tiles(grid, pair, meeting.steps - 1)
  {
    pipe := {start};
    var locations := pair;
    var n := 0;
    while n < fuel
      invariant 0 <= n <= fuel
      invariant Advance(grid, pair, n) == Some(locations)
      invariant forall k :: 1 <= k <= n ==> Apart(grid, pair, k)
      invariant pipe == {start} + TilesBefore(grid, pair, n)
    {
      Visit(grid, pair, n, locations, start, pipe);
      pipe := pipe + TilesOf(locations);
      var next, stop := WalkOnce(grid, pair, fuel, n, locations);
      if stop.Some? {
        if stop.value.Farthest? {
          Close(grid, pair, n + 1, next, start, pipe);
          pipe := pipe + {(next.0.row, next.0.column)};
        }
        return pipe, stop.value;
      }
      locations := next;
      n := n + 1;
    }
    return pipe, OutOfFuel;
  }

  /** One joint step of the walkers from their places after `n` steps: the walk ends when a
      step panics or brings them onto one tile. */
  method WalkOnce(grid: seq<string>, pair: (Location, Location), fuel: nat, n: nat,
                  locations: (Location, Location))
    returns (next: (Location, Location), stop: Option<Outcome>)
    requires n < fuel && Advance(grid, pair, n) == Some(locations)
    requires forall k :: 1 <= k <= n ==> Apart(grid, pair, k)
    ensures stop.Some? ==> Describes(grid, pair, fuel, stop.value)
    ensures stop.Some? && stop.value.Farthest? ==>
      stop.value.steps == n + 2 && Advance(grid, pair, n + 1) == Some(next) && SameTile(next)
    ensures stop.None? ==> Advance(grid, pair, n + 1) == Some(next) && !SameTile(next)
    ensures stop.None? ==> forall k :: 1 <= k <= n + 1 ==> Apart(grid, pair, k)
  {
    AdvanceStep(grid, pair, n, locations);
    var step := StepBoth(grid, locations);
    if step.None? {
      PanicAt(grid, pair, fuel, n);
      return locations, Some(Panicked);
    }
    next := step.value;
    assert Advance(grid, pair, n + 1) == Some(next);
    if SameTile(next) {
      MeetAt(grid, pair, fuel, n, next);
      return next, Some(Farthest(n + 2));
    }
    ApartExtend(grid, pair, n, next);
    stop := None;
  }

  /** Whether passing the tile flips the inside flag: a loop tile holding '|', '-', '7' or
      'L', the start counting as the pipe under it. */
  predicate Crosses(grid: seq<string>, pipe: set<(nat, nat)>, startPipe: char, row: nat, column: nat)
  {
    (row, column) in pipe
    && match Cell(grid, row, column)
      case Some(c) =>
        var p := if c == 'S' then startPipe else c;
        p == '|' || p == '-' || p == '7' || p == 'L'
      case None => false
  }

  /** The fold over the rows `row..end` of anti-diagonal `n`, from `(count, inside)`. */
  function FoldRows(grid: seq<string>, pipe: set<(nat, nat)>, startPipe: char, n: nat, row: nat, end: nat,
                    count: nat, inside: bool): (nat, bool)
    requires row <= end <= n + 1
    decreases end - row
  {
    if row == end then (count, inside)
    else
      var column := n - row;
      var (c, i) :=
        if (row, column) in pipe then (count, if Crosses(grid, pipe, startPipe, row, column) then !inside else inside)
        else if inside then (count + 1, inside)
        else (count, inside);
      FoldRows(grid, pipe, startPipe, n, row + 1, end, c, i)
  }

  /** The loop crossings on anti-diagonal `n` in the rows `lo..hi`. */
  function Crossings(grid: seq<string>, pipe: set<(nat, nat)>, startPipe: char, n: nat, lo: nat, hi: nat): nat
    requires lo <= hi <= n + 1
    decreases hi
  {
    if hi == lo then 0
    else (Crossings(grid, pipe, startPipe, n, lo, hi - 1)
      + if Crosses(grid, pipe, startPipe, hi - 1, n - (hi - 1)) then 1 else 0)
  }

  /** The tiles of anti-diagonal `n` in the rows `lo..hi` that are off the loop and have an
      odd number of crossings before them on the diagonal. */
  function InsideCount(grid: seq<string>, pipe: set<(nat, nat)>, startPipe: char, n: nat, lo: nat, hi: nat): (k: nat)
    requires lo <= hi <= n + 1
    ensures k <= hi - lo
    decreases hi
  {
    if hi == lo then 0
    else (InsideCount(grid, pipe, startPipe, n, lo, hi - 1)
      + if (hi - 1, n - (hi - 1)) !in pipe && Crossings(grid, pipe, startPipe, n, lo, hi - 1) % 2 == 1 then 1 else 0)
  }

  /** The fold computes exactly the inside count: the flag is the parity of the crossings so
      far, and only tiles off the loop with the flag set are counted. */
  lemma {:induction false} FoldIsInsideCount(grid: seq<string>, pipe: set<(nat, nat)>, startPipe: char, n: nat,
                                             lo: nat, row: nat, end: nat)
    requires lo <= row <= end <= n + 1
    ensures FoldRows(grid, pipe, startPipe, n, row, end, InsideCount(grid, pipe, startPipe, n, lo, row),
                     Crossings(grid, pipe, startPipe, n, lo, row) % 2 == 1)
      == (InsideCount(grid, pipe, startPipe, n, lo, end), Crossings(grid, pipe, startPipe, n, lo, end) % 2 == 1)
    decreases end - row
  {
    if row < end {
      FoldIsInsideCount(grid, pipe, startPipe, n, lo, row + 1, end);
    }
  }

  /** The first and one-past-last row of anti-diagonal `n` (`n.saturating_sub(width - 1)` and
      `(n + 1).clamp(1, height)`). */
  function DiagonalRows(height: nat, width: nat, n: nat): (r: (nat, nat))
    requires height >= 1 && width >= 1
    ensures r.0 <= r.1 <= n + 1 && r.1 <= height
  {
    var first := if n >= width - 1 then n - (width - 1) else 0;
    var end := if n + 1 < height then n + 1 else height;
    (if first <= end then first else end, end)
  }

  /** The enclosed tiles counted on anti-diagonal `n`. */
  function DiagonalCount(grid: seq<string>, pipe: set<(nat, nat)>, startPipe: char, n: nat): (k: nat)
    requires |grid| >= 1 && |grid[0]| >= 1
    ensures var (first, end) := DiagonalRows(|grid|, |grid[0]|, n);
      k == InsideCount(grid, pipe, startPipe, n, first, end)
  {
    var (first, end) := DiagonalRows(|grid|, |grid[0]|, n);
    FoldIsInsideCount(grid, pipe, startPipe, n, first, first, end);
    FoldRows(grid, pipe, startPipe, n, first, end, 0, false).0
  }

  /** The sum over the anti-diagonals `0..n`. */
  function SumDiagonals(grid: seq<string>, pipe: set<(nat, nat)>, startPipe: char, n: nat): nat
    requires |grid| >= 1 && |grid[0]| >= 1
  {
    if n == 0 then 0 else SumDiagonals(grid, pipe, startPipe, n - 1) + DiagonalCount(grid, pipe, startPipe, n - 1)
  }

  /** No diagonal counts more tiles than it has, so the total is at most the tiles scanned. */
  lemma {:induction false} SumDiagonalsBound(grid: seq<string>, pipe: set<(nat, nat)>, startPipe: char, n: nat)
    requires |grid| >= 1 && |grid[0]| >= 1
    ensures SumDiagonals(grid, pipe, startPipe, n) <= n * |grid|
  {
    if n > 0 {
      SumDiagonalsBound(grid, pipe, startPipe, n - 1);
      var (first, end) := DiagonalRows(|grid|, |grid[0]|, n - 1);
      assert DiagonalCount(grid, pipe, startPipe, n - 1) <= end - first <= |grid|;
      assert (n - 1) * |grid| + |grid| == n * |grid|;
    }
  }

  /** The answer: the enclosed count, a panic, or a loop still open when the bound ran out. */
  datatype Answer = Enclosed(count: nat) | Failed | Unfinished

  /** The enclosed count for the loop closed after `steps - 1` joint steps: the pipe set is
      the start and every walker tile, and the sum runs over `height + width - 1` diagonals. */
  function EnclosedCount(grid: seq<string>, start: (nat, nat), pair: (Location, Location), steps: nat): nat
    requires |grid| >= 1 && |grid[0]| >= 1 && steps >= 1
  {
    var startPipe := match StartPipe(pair.0.from, pair.1.from) case Some(p) => p case None => '.';
    SumDiagonals(grid, {start} + Tiles(grid, pair, steps - 1), startPipe, |grid| + |grid[0]| - 1)
  }

  /** `r` is the answer once the walkers leave the start at (`row`, `column`) as `pair`: the
      outcome of tracing the loop, and then the enclosed count; a first row that is empty
      makes `map[0].len() - 1` panic. */
  predicate AnswersFrom(grid: seq<string>, fuel: nat, row: nat, column: nat, pair: (Location, Location), r: Answer)
    requires |grid| >= 1
  {
    match r
    case Failed =>
      Describes(grid, pair, fuel, Panicked)
      || (|grid[0]| == 0 && exists steps :: 2 <= steps <= fuel + 1 && Describes(grid, pair, fuel, Farthest(steps)))
    case Unfinished => Describes(grid, pair, fuel, OutOfFuel)
    case Enclosed(count) =>
      |grid[0]| >= 1
      && exists steps ::
        (2 <= steps <= fuel + 1 && Describes(grid, pair, fuel, Farthest(steps))
         && count == EnclosedCount(grid, (row, column), pair, steps))
  }

  /** `r` is the answer for the grid: a panic without a start or two connecting neighbours,
      otherwise the answer from the start directions. */
  predicate Answers(grid: seq<string>, fuel: nat, r: Answer)
  {
    match FindStart(grid, 0)
    case None => r == Failed
    case Some((row, column)) =>
      match StartDirections(grid, row, column)
      case None => r == Failed
      case Some(pair) => AnswersFrom(grid, fuel, row, column, pair, r)
  }

  /** Tracing the loop from the start directions and counting the enclosed tiles. */
  method SolveFrom(grid: seq<string>, row: nat, column: nat, pair: (Location, Location), fuel: nat)
    returns (r: Answer)
    requires row < |grid| && StartDirections(grid, row, column) == Some(pair)
    ensures AnswersFrom(grid, fuel, row, column, pair, r)
  {
    StartWalkersApart(grid, row, column);
    var pipe, meeting := TraceLoop(grid, (row, column), pair, fuel);
    match meeting
    case Farthest(steps) =>
      if |grid[0]| == 0 {
        return Failed;
      }
      StartDirectionsConnect(grid, row, column);
      StartPipeOpenings(pair.0.from, pair.1.from);
      var startPipe := StartPipe(pair.0.from, pair.1.from).value;
      var count := SumDiagonals(grid, pipe, startPipe, |grid| + |grid[0]| - 1);
      assert count == EnclosedCount(grid, (row, column), pair, steps);
      r := Enclosed(count);
    case Panicked => r := Failed;
    case OutOfFuel => r := Unfinished;
  }

  /** `find_start_directions` of this part repeats the clamped reads of part 1. A start on
      the last column, here "F-7" / "|.S" / "L-J", has its eastern read past the end of its
      row, which panics; without the clamp the walkers leave north and south along the loop. */
  lemma StartOnLastColumnPanics()
    ensures StartDirectionsAsWritten(["F-7", "|.S", "L-J"], 1, 2).None?
    ensures StartDirections(["F-7", "|.S", "L-J"], 1, 2) == Some((Location(0, 2, South), Location(2, 2, North)))
  {
    var grid := ["F-7", "|.S", "L-J"];
    assert Cell(grid, 1, 3).None?;
    assert Candidate(grid, 1, 2, North) == [Location(0, 2, South)];
    assert Candidate(grid, 1, 2, South) == [Location(2, 2, North)];
    assert Candidate(grid, 1, 2, East) == [];
    assert Candidate(grid, 1, 2, West) == [];
  }

  /** `solve`: the loop is traced from the start, the start pipe inferred, and the enclosed
      tiles summed over the anti-diagonals. */
  method Solve(input: string, fuel: nat) returns (r: Answer)
    ensures Answers(Lines(input), fuel, r)
  {
    var grid := Lines(input);
    var start := FindStart(grid, 0);
    if start.None? {
      return Failed;
    }
    var (row, column) := start.value;
    var pair := StartDirections(grid, row, column);
    if pair.None? {
      return Failed;
    }
    r := SolveFrom(grid, row, column, pair.value, fuel);
  }
}
