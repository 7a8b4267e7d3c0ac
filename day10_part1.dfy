/** Day 10, part 1: a loop of pipes through the start tile 'S'. Two walkers leave the start
    along its two connections; the farthest tile of the loop is where they meet. */
module Day10Part1 {
  import opened Text

  datatype Direction = North | South | East | West

  function Opposite(d: Direction): Direction
  {
    match d
    case North => South
    case South => North
    case East => West
    case West => East
  }

  /** A walker at a tile, with the side of the tile it came in from. */
  datatype Location = Location(row: nat, column: nat, from: Direction)

  /** The tile at `row`, `column`; none outside the grid, where indexing panics. */
  function Cell(grid: seq<string>, row: nat, column: nat): (r: Option<char>)
    ensures r.Some? <==> row < |grid| && column < |grid[row]|
    ensures r.Some? ==> r.value == grid[row][column]
  {
    if row < |grid| && column < |grid[row]| then Some(grid[row][column]) else None
  }

  /** The sides of a tile its pipe connects. */
  function Openings(c: char): set<Direction>
  {
    match c
    case '|' => {North, South}
    case '-' => {East, West}
    case 'L' => {North, East}
    case 'J' => {North, West}
    case '7' => {South, West}
    case 'F' => {South, East}
    case _ => {}
  }

  /** The tile one step towards `d`; none off the top or left edge. */
  function Move(row: nat, column: nat, d: Direction): Option<(nat, nat)>
  {
    match d
    case North => if row == 0 then None else Some((row - 1, column))
    case South => Some((row + 1, column))
    case East => Some((row, column + 1))
    case West => if column == 0 then None else Some((row, column - 1))
  }

  /** `find_next_location`: through the pipe of the walker's tile, out at its other side;
      none when the pipe has no opening on the side the walker came from, the tile is off
      the grid or the step would leave the top or left edge. */
  function NextLocation(grid: seq<string>, loc: Location): Option<Location>
  {
    match Cell(grid, loc.row, loc.column)
    case None => None
    case Some(pipe) =>
      var (r, c) := (loc.row, loc.column);
      match (loc.from, pipe)
      case (North, '|') => Some(Location(r + 1, c, North))
      case (North, 'L') => Some(Location(r, c + 1, West))
      case (North, 'J') => if c == 0 then None else Some(Location(r, c - 1, East))
      case (South, '|') => if r == 0 then None else Some(Location(r - 1, c, South))
      case (South, '7') => if c == 0 then None else Some(Location(r, c - 1, East))
      case (South, 'F') => Some(Location(r, c + 1, West))
      case (East, '-') => if c == 0 then None else Some(Location(r, c - 1, East))
      case (East, 'L') => if r == 0 then None else Some(Location(r - 1, c, South))
      case (East, 'F') => Some(Location(r + 1, c, North))
      case (West, '-') => Some(Location(r, c + 1, West))
      case (West, '7') => Some(Location(r + 1, c, North))
      case (West, 'J') => if r == 0 then None else Some(Location(r - 1, c, South))
      case _ => None
  }

  /** The walker enters its pipe at one opening and leaves by the other: the next tile lies
      past the pipe's other opening, and the walker arrives there from the tile it left. */
  lemma NextFollowsOpenings(grid: seq<string>, loc: Location)
    ensures NextLocation(grid, loc).Some? <==>
      Cell(grid, loc.row, loc.column).Some? && loc.from in Openings(Cell(grid, loc.row, loc.column).value)
      && exists d ::
        (d in Openings(Cell(grid, loc.row, loc.column).value) && d != loc.from && Move(loc.row, loc.column, d).Some?)
    ensures NextLocation(grid, loc).Some? ==>
      var next := NextLocation(grid, loc).value;
      var out := Opposite(next.from);
      out in Openings(grid[loc.row][loc.column]) && out != loc.from
      && Move(loc.row, loc.column, out) == Some((next.row, next.column))
      && Move(next.row, next.column, next.from) == Some((loc.row, loc.column))
  {
    var cell := Cell(grid, loc.row, loc.column);
    if cell.Some? {
      var p := cell.value;
      if loc.from in Openings(p) {
        var others := Openings(p) - {loc.from};
        var d :| d in others;
        assert others == {d};
      }
    }
  }

  /** Whether the neighbour towards `d` connects back to the start (`b'|' | b'7' | b'F'`
      for the northern one, and so on). */
  predicate Accepts(d: Direction, c: char)
  {
    match d
    case North => c == '|' || c == '7' || c == 'F'
    case South => c == '|' || c == 'L' || c == 'J'
    case East => c == '-' || c == 'J' || c == '7'
    case West => c == '-' || c == 'L' || c == 'F'
  }

  /** A neighbour is accepted exactly when its pipe opens towards the start. */
  lemma AcceptsIffOpensBack(d: Direction, c: char)
    ensures Accepts(d, c) <==> Opposite(d) in Openings(c)
  {
  }

  /** The walker that steps from the start onto the neighbour towards `d`, if its pipe
      connects back. */
  function Candidate(grid: seq<string>, row: nat, column: nat, d: Direction): (r: seq<Location>)
    ensures |r| <= 1
    ensures r != [] <==> (Move(row, column, d).Some?
      && Cell(grid, Move(row, column, d).value.0, Move(row, column, d).value.1).Some?
      && Accepts(d, Cell(grid, Move(row, column, d).value.0, Move(row, column, d).value.1).value))
    ensures r != [] ==> r[0] == Location(Move(row, column, d).value.0, Move(row, column, d).value.1, Opposite(d))
  {
    match Move(row, column, d)
    case None => []
    case Some((r, c)) =>
      match Cell(grid, r, c)
      case Some(p) => if Accepts(d, p) then [Location(r, c, Opposite(d))] else []
      case None => []
  }

  /** `find_start_directions` as written: the southern and eastern neighbours are read at
      `(row + 1).clamp(0, grid.len())` and `(column + 1).clamp(0, len)`, which are past the
      end when the start is on the last row or column, and the read panics. The northern
      and western reads saturate at 0 and then see the start itself, which no rule accepts. */
  function StartDirectionsAsWritten(grid: seq<string>, row: nat, column: nat): Option<(Location, Location)>
    requires row < |grid| && column < |grid[row]| && grid[row][column] == 'S'
  {
    var north := Cell(grid, if row == 0 then 0 else row - 1, column);
    var south := Cell(grid, if row + 1 < |grid| then row + 1 else |grid|, column);
    var east := Cell(grid, row, if column + 1 < |grid[row]| then column + 1 else |grid[row]|);
    var west := Cell(grid, row, if column == 0 then 0 else column - 1);
    if north.None? || south.None? || east.None? || west.None? then None
    else
      var found := Candidate(grid, row, column, North) + Candidate(grid, row, column, South)
        + Candidate(grid, row, column, East) + Candidate(grid, row, column, West);
      if |found| < 2 then None else Some((found[0], found[1]))
  }

  /** The start directions with a neighbour off the grid counting as no pipe: the first two
      connecting neighbours in the order north, south, east, west. */
  function StartDirections(grid: seq<string>, row: nat, column: nat): Option<(Location, Location)>
  {
    var found := Candidate(grid, row, column, North) + Candidate(grid, row, column, South)
      + Candidate(grid, row, column, East) + Candidate(grid, row, column, West);
    if |found| < 2 then None else Some((found[0], found[1]))
  }

  /** Apart from the panics, the two agree: whenever the reads as written stay on the grid
      they find the same neighbours. */
  lemma AsWrittenAgreesWhenInside(grid: seq<string>, row: nat, column: nat)
    requires row < |grid| && column < |grid[row]| && grid[row][column] == 'S'
    ensures StartDirectionsAsWritten(grid, row, column).Some? ==>
      StartDirectionsAsWritten(grid, row, column) == StartDirections(grid, row, column)
    ensures (row + 1 < |grid| && column < |grid[row + 1]| && column + 1 < |grid[row]|
      && (row == 0 || column < |grid[row - 1]|))
      ==> StartDirectionsAsWritten(grid, row, column) == StartDirections(grid, row, column)
  {
  }

  /** Every walker that leaves the start stands on a connecting neighbour and came from the
      start; the two walkers leave in different directions. */
  lemma StartDirectionsConnect(grid: seq<string>, row: nat, column: nat)
    requires StartDirections(grid, row, column).Some?
    ensures var (l1, l2) := StartDirections(grid, row, column).value;
      l1.from != l2.from
      && Move(l1.row, l1.column, l1.from) == Some((row, column))
      && Move(l2.row, l2.column, l2.from) == Some((row, column))
      && l1.from in Openings(grid[l1.row][l1.column])
      && l2.from in Openings(grid[l2.row][l2.column])
  {
  }

  /** A start on the last row: "F7" above "SJ". The loop through 'S' is the four tiles,
      but the southern read as written is past the end of the grid and panics. */
  lemma StartOnLastRowPanics()
    ensures StartDirectionsAsWritten(["F7", "SJ"], 1, 0).None?
    ensures StartDirections(["F7", "SJ"], 1, 0) == Some((Location(0, 0, South), Location(1, 1, West)))
  {
    var grid := ["F7", "SJ"];
    assert Cell(grid, 2, 0).None?;
    assert Candidate(grid, 1, 0, North) == [Location(0, 0, South)];
    assert Candidate(grid, 1, 0, South) == [];
    assert Candidate(grid, 1, 0, East) == [Location(1, 1, West)];
    assert Candidate(grid, 1, 0, West) == [];
  }

  /** `find_start`: the first 'S' of the first row that has one, from row `row` on. */
  function FindStart(grid: seq<string>, row: nat): (r: Option<(nat, nat)>)
    requires row <= |grid|
    ensures r.Some? ==> (row <= r.value.0 < |grid| && r.value.1 < |grid[r.value.0]|
      && grid[r.value.0][r.value.1] == 'S' && 'S' !in grid[r.value.0][..r.value.1]
      && forall i :: row <= i < r.value.0 ==> 'S' !in grid[i])
    ensures r.None? <==> forall i :: row <= i < |grid| ==> 'S' !in grid[i]
    decreases |grid| - row
  {
    if row == |grid| then None
    else match IndexOf(grid[row], 'S')
      case Some(c) => Some((row, c))
      case None => FindStart(grid, row + 1)
  }

  /** Both walkers one step on; none when either would panic. */
  function StepBoth(grid: seq<string>, pair: (Location, Location)): Option<(Location, Location)>
  {
    match (NextLocation(grid, pair.0), NextLocation(grid, pair.1))
    case (Some(a), Some(b)) => Some((a, b))
    case _ => None
  }

  /** The walkers after `n` joint steps: the first step, then `n - 1` more from there. */
  function Advance(grid: seq<string>, pair: (Location, Location), n: nat): Option<(Location, Location)>
    decreases n
  {
    if n == 0 then Some(pair)
    else match StepBoth(grid, pair)
      case None => None
      case Some(p) => Advance(grid, p, n - 1)
  }

  /** Step `n + 1` is one joint step on from step `n`. */
  lemma {:induction false} AdvanceStep(grid: seq<string>, pair: (Location, Location), n: nat,
                                       locations: (Location, Location))
    requires Advance(grid, pair, n) == Some(locations)
    ensures Advance(grid, pair, n + 1) == StepBoth(grid, locations)
    decreases n
  {
    if n > 0 {
      AdvanceStep(grid, StepBoth(grid, pair).value, n - 1, locations);
    }
  }

  predicate SameTile(pair: (Location, Location))
  {
    pair.0.row == pair.1.row && pair.0.column == pair.1.column
  }

  /** Both walkers are on the grid after `k` steps, on different tiles. */
  predicate Apart(grid: seq<string>, pair: (Location, Location), k: nat)
  {
    Advance(grid, pair, k).Some? && !SameTile(Advance(grid, pair, k).value)
  }

  datatype Outcome = Farthest(steps: nat) | Panicked | OutOfFuel

  /** `outcome` is how the walk from `pair` ends within `fuel` joint steps: the first meeting
      after `n + 1` steps, answered as `n + 2` (the walkers start one step from 'S'), a panic
      while apart, or still apart at the end. */
  predicate Describes(grid: seq<string>, pair: (Location, Location), fuel: nat, outcome: Outcome)
  {
    match outcome
    case Farthest(steps) =>
      2 <= steps <= fuel + 1 && Advance(grid, pair, steps - 1).Some?
      && SameTile(Advance(grid, pair, steps - 1).value)
      && forall k :: 1 <= k < steps - 1 ==> Apart(grid, pair, k)
    case Panicked =>
      exists k :: 1 <= k <= fuel && Advance(grid, pair, k).None?
        && forall j :: 1 <= j < k ==> Apart(grid, pair, j)
    case OutOfFuel =>
      forall k :: 1 <= k <= fuel ==> Apart(grid, pair, k)
  }

  /** The `from_fn` / `enumerate` / `find` loop, allowed `fuel` joint steps. */
  method Meet(grid: seq<string>, pair: (Location, Location), fuel: nat) returns (outcome: Outcome)
    ensures Describes(grid, pair, fuel, outcome)
  {
    var locations := pair;
    var n := 0;
    while n < fuel
      invariant 0 <= n <= fuel
      invariant Advance(grid, pair, n) == Some(locations)
      invariant forall k :: 1 <= k <= n ==> Apart(grid, pair, k)
    {
      AdvanceStep(grid, pair, n, locations);
      var next := StepBoth(grid, locations);
      if next.None? {
        assert Advance(grid, pair, n + 1).None?;
        return Panicked;
      }
      locations := next.value;
      if SameTile(locations) {
        return Farthest(n + 2);
      }
      n := n + 1;
    }
    return OutOfFuel;
  }

  /** `solve`: none of 'S', or fewer than two connecting neighbours, panics; otherwise the
      walkers leave along the start directions. */
  method Solve(input: string, fuel: nat) returns (outcome: Outcome)
    ensures FindStart(Lines(input), 0).None? ==> outcome == Panicked
    ensures FindStart(Lines(input), 0).Some? ==>
      var (row, column) := FindStart(Lines(input), 0).value;
      match StartDirections(Lines(input), row, column)
      case None => outcome == Panicked
      case Some(pair) => Describes(Lines(input), pair, fuel, outcome)
  {
    var grid := Lines(input);
    var start := FindStart(grid, 0);
    if start.None? {
      return Panicked;
    }
    var (row, column) := start.value;
    var pair := StartDirections(grid, row, column);
    if pair.None? {
      return Panicked;
    }
    outcome := Meet(grid, pair.value, fuel);
  }
}
