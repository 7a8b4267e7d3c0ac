/** Day 14, part 2: the platform is tilted north, west, south and east in turn, a billion
    times; the load on the north beams is read off once the states start to repeat. The
    grid is rolled in place, one line at a time, with an insertion index per line. */
module Day14Part2 {
  import opened Text
  import opened Day14Part1

  /** A platform as rows of cells. */
  type Board = seq<seq<Cell>>

  predicate Rect(b: Board, w: nat)
  {
    forall r :: 0 <= r < |b| ==> |b[r]| == w
  }

  /** Column `c`, read from the top. */
  function Col(b: Board, w: nat, c: nat): (x: seq<Cell>)
    requires Rect(b, w) && c < w
    ensures |x| == |b| && forall r :: 0 <= r < |b| ==> x[r] == b[r][c]
  {
    seq(|b|, r requires 0 <= r < |b| => b[r][c])
  }

  /** A line rolled toward its end: rolled toward the front when read backwards. */
  function SettleBack(x: seq<Cell>): (s: seq<Cell>)
    ensures |s| == |x|
  {
    Reverse(Settle(Reverse(x)))
  }

  /** Every column rolled north. */
  function NorthF(b: Board, w: nat): (n: Board)
    requires Rect(b, w)
    ensures |n| == |b| && Rect(n, w)
    ensures forall r, c :: 0 <= r < |b| && 0 <= c < w ==> n[r][c] == Settle(Col(b, w, c))[r]
  {
    seq(|b|, r requires 0 <= r < |b| => seq(w, c requires 0 <= c < w => Settle(Col(b, w, c))[r]))
  }

  /** Every row rolled west. */
  function WestF(b: Board, w: nat): (n: Board)
    requires Rect(b, w)
    ensures |n| == |b| && Rect(n, w)
    ensures forall r :: 0 <= r < |b| ==> n[r] == Settle(b[r])
  {
    seq(|b|, r requires 0 <= r < |b| => Settle(b[r]))
  }

  /** Every column rolled south: the column read from the bottom, rolled, and read back. */
  function SouthF(b: Board, w: nat): (n: Board)
    requires Rect(b, w)
    ensures |n| == |b| && Rect(n, w)
    ensures forall r, c :: 0 <= r < |b| && 0 <= c < w ==>
      n[r][c] == Settle(Reverse(Col(b, w, c)))[|b| - 1 - r]
  {
    seq(|b|, r requires 0 <= r < |b| =>
      seq(w, c requires 0 <= c < w => Settle(Reverse(Col(b, w, c)))[|b| - 1 - r]))
  }

  /** Every row rolled east. */
  function EastF(b: Board, w: nat): (n: Board)
    requires Rect(b, w)
    ensures |n| == |b| && Rect(n, w)
    ensures forall r :: 0 <= r < |b| ==> n[r] == SettleBack(b[r])
  {
    seq(|b|, r requires 0 <= r < |b| => SettleBack(b[r]))
  }

  /** One spin cycle: north, west, south, east. */
  function CycleF(b: Board, w: nat): (n: Board)
    requires Rect(b, w)
    ensures |n| == |b| && Rect(n, w)
  {
    EastF(SouthF(WestF(NorthF(b, w), w), w), w)
  }

  /** One spin cycle as a step function on platforms of width `w`. */
  function Spin(w: nat): Board -> Board
  {
    b => if Rect(b, w) then CycleF(b, w) else b
  }

  /** `f` applied `k` times. */
  function Repeat<T>(f: T -> T, x: T, k: nat): T
  {
    if k == 0 then x else f(Repeat(f, x, k - 1))
  }

  /** A property kept by every step holds after any number of steps. */
  lemma {:induction false} RepeatKeeps<T>(f: T -> T, p: T -> bool, x: T, k: nat)
    requires p(x) && forall y :: p(y) ==> p(f(y))
    ensures p(Repeat(f, x, k))
  {
    if k > 0 {
      RepeatKeeps(f, p, x, k - 1);
    }
  }

  lemma SpinIs(b: Board, w: nat)
    requires Rect(b, w)
    ensures Spin(w)(b) == CycleF(b, w)
  {
  }

  lemma RepeatRect(b: Board, w: nat, k: nat)
    requires Rect(b, w)
    ensures |Repeat(Spin(w), b, k)| == |b| && Rect(Repeat(Spin(w), b, k), w)
  {
    var p := (y: Board) => |y| == |b| && Rect(y, w);
    forall y | p(y) ensures p(Spin(w)(y)) {
      SpinIs(y, w);
    }
    RepeatKeeps(Spin(w), p, b, k);
  }

  /** The platform after `k` spin cycles. */
  function Iterate(b: Board, w: nat, k: nat): (n: Board)
    requires Rect(b, w)
    ensures |n| == |b| && Rect(n, w)
  {
    RepeatRect(b, w, k);
    Repeat(Spin(w), b, k)
  }

  lemma IterateStep(b: Board, w: nat, k: nat)
    requires Rect(b, w)
    ensures Iterate(b, w, k + 1) == CycleF(Iterate(b, w, k), w)
  {
  }

  /** The cells of the grid, row by row. */
  function RowOf(g: array2<Cell>, r: nat, n: nat): (x: seq<Cell>)
    reads g
    requires r < g.Length0 && n <= g.Length1
    ensures |x| == n && forall c :: 0 <= c < n ==> x[c] == g[r, c]
  {
    if n == 0 then [] else RowOf(g, r, n - 1) + [g[r, n - 1]]
  }

  function RowsOf(g: array2<Cell>, n: nat): (b: Board)
    reads g
    requires n <= g.Length0
    ensures |b| == n && Rect(b, g.Length1)
    ensures forall r, c :: 0 <= r < n && 0 <= c < g.Length1 ==> b[r][c] == g[r, c]
  {
    if n == 0 then [] else RowsOf(g, n - 1) + [RowOf(g, n - 1, g.Length1)]
  }

  /** A copy of the grid, as `Grid::clone` gives. */
  function Snapshot(g: array2<Cell>): (b: Board)
    reads g
    ensures |b| == g.Length0 && Rect(b, g.Length1)
    ensures forall r, c :: 0 <= r < g.Length0 && 0 <= c < g.Length1 ==> b[r][c] == g[r, c]
  {
    RowsOf(g, g.Length0)
  }

  lemma SnapshotIs(g: array2<Cell>, b: Board)
    requires |b| == g.Length0 && Rect(b, g.Length1)
    requires forall r, c :: 0 <= r < g.Length0 && 0 <= c < g.Length1 ==> b[r][c] == g[r, c]
    ensures Snapshot(g) == b
  {
    var s := Snapshot(g);
    forall r | 0 <= r < |b| ensures s[r] == b[r] {
      assert |s[r]| == |b[r]|;
    }
  }

  /** The cells of a line already rolled: what is done, then the current segment's round
      rocks and empty cells. */
  function Prefix(done: seq<Cell>, r: nat, e: nat): (l: seq<Cell>)
    ensures |l| == |done| + r + e
  {
    done + Rounds(r) + Empties(e)
  }

  /** A line `x` rolled in place up to cell `m`: `line` holds the rolled prefix and the
      unread rest of `x`, and the scan state says how the roll goes on. */
  predicate Rolling(x: seq<Cell>, m: nat, done: seq<Cell>, r: nat, e: nat, line: seq<Cell>)
  {
    Scanned(x, m, done, r, e) && |line| == |x| && |done| + r + e == m &&
    line[..m] == Prefix(done, r, e) && line[m..] == x[m..]
  }

  lemma RollStart(x: seq<Cell>)
    ensures Rolling(x, 0, [], 0, 0, x)
  {
    ScanStart(x);
  }

  lemma RollRead(x: seq<Cell>, m: nat, done: seq<Cell>, r: nat, e: nat, line: seq<Cell>)
    requires Rolling(x, m, done, r, e, line) && m < |x|
    ensures line[m] == x[m]
  {
    assert line[m..][0] == x[m..][0];
  }

  /** A round rock read after an empty cell moves to the segment's first empty cell. */
  lemma RollMove(x: seq<Cell>, m: nat, done: seq<Cell>, r: nat, e: nat, line: seq<Cell>)
    requires Rolling(x, m, done, r, e, line) && m < |x| && x[m] == Round && e > 0
    ensures Rolling(x, m + 1, done, r + 1, e, line[|done| + r := Round][m := Empty])
  {
    ScanRound(x, m, done, r, e);
    var a := line[|done| + r := Round][m := Empty];
    var b := Prefix(done, r + 1, e);
    forall i | 0 <= i <= m ensures a[i] == b[i] {
      if i < |done| {
        assert a[i] == line[..m][i] == done[i];
      } else if i <= |done| + r {
        assert b[i] == Rounds(r + 1)[i - |done|];
        if i < |done| + r {
          assert a[i] == line[..m][i] == Rounds(r)[i - |done|];
        }
      } else {
        assert b[i] == Empties(e)[i - |done| - r - 1];
        if i < m {
          assert a[i] == line[..m][i] == Empties(e)[i - |done| - r - 1];
        }
      }
    }
    assert a[..m + 1] == b;
    assert a[m + 1..] == line[m + 1..] == x[m + 1..] by {
      assert line[m + 1..] == line[m..][1..];
      assert x[m + 1..] == x[m..][1..];
    }
  }

  /** A round rock read right after the segment's round rocks stays where it is. */
  lemma RollKeep(x: seq<Cell>, m: nat, done: seq<Cell>, r: nat, line: seq<Cell>)
    requires Rolling(x, m, done, r, 0, line) && m < |x| && x[m] == Round
    ensures Rolling(x, m + 1, done, r + 1, 0, line)
  {
    ScanRound(x, m, done, r, 0);
    RollRead(x, m, done, r, 0, line);
    assert Rounds(r + 1) == Rounds(r) + [Round];
    assert line[..m + 1] == line[..m] + [line[m]];
    assert line[m + 1..] == line[m..][1..];
    assert x[m + 1..] == x[m..][1..];
  }

  lemma RollEmpty(x: seq<Cell>, m: nat, done: seq<Cell>, r: nat, e: nat, line: seq<Cell>)
    requires Rolling(x, m, done, r, e, line) && m < |x| && x[m] == Empty
    ensures Rolling(x, m + 1, done, r, e + 1, line)
  {
    ScanEmpty(x, m, done, r, e);
    RollRead(x, m, done, r, e, line);
    assert Empties(e + 1) == Empties(e) + [Empty];
    assert line[..m + 1] == line[..m] + [line[m]];
    assert line[m + 1..] == line[m..][1..];
    assert x[m + 1..] == x[m..][1..];
  }

  lemma RollCube(x: seq<Cell>, m: nat, done: seq<Cell>, r: nat, e: nat, line: seq<Cell>)
    requires Rolling(x, m, done, r, e, line) && m < |x| && x[m] == Cube
    ensures Rolling(x, m + 1, done + Rounds(r) + Empties(e) + [Cube], 0, 0, line)
  {
    ScanCube(x, m, done, r, e);
    RollRead(x, m, done, r, e, line);
    assert line[..m + 1] == line[..m] + [line[m]];
    assert line[m + 1..] == line[m..][1..];
    assert x[m + 1..] == x[m..][1..];
  }

  lemma RollEnd(x: seq<Cell>, done: seq<Cell>, r: nat, e: nat, line: seq<Cell>)
    requires Rolling(x, |x|, done, r, e, line)
    ensures line == Settle(x)
  {
    ScanEnd(x, done, r, e);
    assert line == line[..|x|];
  }

  /** Rolling one column north in place (the body of `roll_north`'s outer loop). */
  method RollNorthColumn(g: array2<Cell>, col: nat, ghost x: seq<Cell>)
    requires col < g.Length1 && |x| == g.Length0
    requires forall r :: 0 <= r < g.Length0 ==> g[r, col] == x[r]
    modifies g
    ensures forall r :: 0 <= r < g.Length0 ==> g[r, col] == Settle(x)[r]
    ensures forall r, c :: 0 <= r < g.Length0 && 0 <= c < g.Length1 && c != col ==> g[r, c] == old(g[r, c])
  {
    ghost var done: seq<Cell> := [];
    ghost var cnt, e := 0, 0;
    ghost var line := x;
    RollStart(x);
    var insert := 0;
    var row := 0;
    while row < g.Length0
      invariant row <= g.Length0 && insert == |done| + cnt
      invariant Rolling(x, row, done, cnt, e, line)
      invariant forall r :: 0 <= r < g.Length0 ==> g[r, col] == line[r]
      invariant forall r, c :: 0 <= r < g.Length0 && 0 <= c < g.Length1 && c != col ==> g[r, c] == old(g[r, c])
    {
      insert, done, cnt, e, line := NorthCell(g, col, row, insert, x, done, cnt, e, line);
      row := row + 1;
    }
    RollEnd(x, done, cnt, e, line);
  }

  /** One cell of the scan down column `col`: a round rock moves up to `insert` or stays,
      a cube rock sets `insert` just below it, an empty cell is passed over. */
  method NorthCell(g: array2<Cell>, col: nat, row: nat, insert: nat, ghost x: seq<Cell>,
                   ghost done: seq<Cell>, ghost cnt: nat, ghost e: nat, ghost line: seq<Cell>)
    returns (next: nat, ghost done': seq<Cell>, ghost cnt': nat, ghost e': nat, ghost line': seq<Cell>)
    requires col < g.Length1 && row < g.Length0 && |x| == g.Length0 && insert == |done| + cnt
    requires Rolling(x, row, done, cnt, e, line)
    requires forall r :: 0 <= r < g.Length0 ==> g[r, col] == line[r]
    modifies g
    ensures next == |done'| + cnt' && Rolling(x, row + 1, done', cnt', e', line')
    ensures forall r :: 0 <= r < g.Length0 ==> g[r, col] == line'[r]
    ensures forall r, c :: 0 <= r < g.Length0 && 0 <= c < g.Length1 && c != col ==> g[r, c] == old(g[r, c])
  {
    RollRead(x, row, done, cnt, e, line);
    done', cnt', e', line' := done, cnt, e, line;
    if g[row, col] == Round {
      if insert != row {
        RollMove(x, row, done, cnt, e, line);
        MoveInColumn(g, col, row, insert);
        line' := line[insert := Round][row := Empty];
      } else {
        RollKeep(x, row, done, cnt, line);
      }
      next, cnt' := insert + 1, cnt + 1;
    } else if g[row, col] == Cube {
      RollCube(x, row, done, cnt, e, line);
      next := row + 1;
      done', cnt', e' := done + Rounds(cnt) + Empties(e) + [Cube], 0, 0;
    } else {
      RollEmpty(x, row, done, cnt, e, line);
      next, e' := insert, e + 1;
    }
  }


  /** `roll_north`: every column rolled north, in place. */
  method RollNorth(g: array2<Cell>)
    modifies g
    ensures Snapshot(g) == NorthF(old(Snapshot(g)), g.Length1)
  {
    ghost var b := Snapshot(g);
    var col := 0;
    while col < g.Length1
      invariant col <= g.Length1
      invariant forall r, c :: 0 <= r < g.Length0 && 0 <= c < g.Length1 ==>
        g[r, c] == (if c < col then NorthF(b, g.Length1)[r][c] else b[r][c])
    {
      RollNorthColumn(g, col, Col(b, g.Length1, col));
      col := col + 1;
    }
    SnapshotIs(g, NorthF(b, g.Length1));
  }

  /** Rolling one row west in place (the body of `roll_west`'s outer loop). */
  method RollWestRow(g: array2<Cell>, row: nat, ghost x: seq<Cell>)
    requires row < g.Length0 && |x| == g.Length1
    requires forall c :: 0 <= c < g.Length1 ==> g[row, c] == x[c]
    modifies g
    ensures forall c :: 0 <= c < g.Length1 ==> g[row, c] == Settle(x)[c]
    ensures forall r, c :: 0 <= r < g.Length0 && 0 <= c < g.Length1 && r != row ==> g[r, c] == old(g[r, c])
  {
    ghost var done: seq<Cell> := [];
    ghost var cnt, e := 0, 0;
    ghost var line := x;
    RollStart(x);
    var insert := 0;
    var col := 0;
    while col < g.Length1
      invariant col <= g.Length1 && insert == |done| + cnt
      invariant Rolling(x, col, done, cnt, e, line)
      invariant forall c :: 0 <= c < g.Length1 ==> g[row, c] == line[c]
      invariant forall r, c :: 0 <= r < g.Length0 && 0 <= c < g.Length1 && r != row ==> g[r, c] == old(g[r, c])
    {
      insert, done, cnt, e, line := WestCell(g, row, col, insert, x, done, cnt, e, line);
      col := col + 1;
    }
    RollEnd(x, done, cnt, e, line);
  }

  /** One cell of the scan along row `row`, as `NorthCell` does for a column. */
  method WestCell(g: array2<Cell>, row: nat, col: nat, insert: nat, ghost x: seq<Cell>,
                  ghost done: seq<Cell>, ghost cnt: nat, ghost e: nat, ghost line: seq<Cell>)
    returns (next: nat, ghost done': seq<Cell>, ghost cnt': nat, ghost e': nat, ghost line': seq<Cell>)
    requires row < g.Length0 && col < g.Length1 && |x| == g.Length1 && insert == |done| + cnt
    requires Rolling(x, col, done, cnt, e, line)
    requires forall c :: 0 <= c < g.Length1 ==> g[row, c] == line[c]
    modifies g
    ensures next == |done'| + cnt' && Rolling(x, col + 1, done', cnt', e', line')
    ensures forall c :: 0 <= c < g.Length1 ==> g[row, c] == line'[c]
    ensures forall r, c :: 0 <= r < g.Length0 && 0 <= c < g.Length1 && r != row ==> g[r, c] == old(g[r, c])
  {
    RollRead(x, col, done, cnt, e, line);
    done', cnt', e', line' := done, cnt, e, line;
    if g[row, col] == Round {
      if insert != col {
        RollMove(x, col, done, cnt, e, line);
        MoveInRow(g, row, col, insert);
        line' := line[insert := Round][col := Empty];
      } else {
        RollKeep(x, col, done, cnt, line);
      }
      next, cnt' := insert + 1, cnt + 1;
    } else if g[row, col] == Cube {
      RollCube(x, col, done, cnt, e, line);
      next := col + 1;
      done', cnt', e' := done + Rounds(cnt) + Empties(e) + [Cube], 0, 0;
    } else {
      RollEmpty(x, col, done, cnt, e, line);
      next, e' := insert, e + 1;
    }
  }


  /** `roll_west`: every row rolled west, in place. */
  method RollWest(g: array2<Cell>)
    modifies g
    ensures Snapshot(g) == WestF(old(Snapshot(g)), g.Length1)
  {
    ghost var b := Snapshot(g);
    var row := 0;
    while row < g.Length0
      invariant row <= g.Length0
      invariant forall r, c :: 0 <= r < g.Length0 && 0 <= c < g.Length1 ==>
        g[r, c] == (if r < row then WestF(b, g.Length1)[r][c] else b[r][c])
    {
      RollWestRow(g, row, b[row]);
      row := row + 1;
    }
    SnapshotIs(g, WestF(b, g.Length1));
  }

  /** Rolling one column south in place (the body of `roll_south`'s outer loop): the column
      read from the bottom rolls like a column rolled north. The first insertion row is the
      last row, so the column must have one; `saturating_sub` keeps the index at zero once
      the top is reached, when no cell is left to read. */
  method RollSouthColumn(g: array2<Cell>, col: nat, ghost y: seq<Cell>)
    requires col < g.Length1 && |y| == g.Length0 && g.Length0 > 0
    requires forall r :: 0 <= r < g.Length0 ==> g[r, col] == y[g.Length0 - 1 - r]
    modifies g
    ensures forall r :: 0 <= r < g.Length0 ==> g[r, col] == Settle(y)[g.Length0 - 1 - r]
    ensures forall r, c :: 0 <= r < g.Length0 && 0 <= c < g.Length1 && c != col ==> g[r, c] == old(g[r, c])
  {
    ghost var done: seq<Cell> := [];
    ghost var cnt, e := 0, 0;
    ghost var line := y;
    RollStart(y);
    var insert := g.Length0 - 1;
    var row := g.Length0;
    while row > 0
      invariant row <= g.Length0 && |done| + cnt + e == g.Length0 - row
      invariant insert == if |done| + cnt < g.Length0 then g.Length0 - 1 - |done| - cnt else 0
      invariant Rolling(y, g.Length0 - row, done, cnt, e, line)
      invariant forall r :: 0 <= r < g.Length0 ==> g[r, col] == line[g.Length0 - 1 - r]
      invariant forall r, c :: 0 <= r < g.Length0 && 0 <= c < g.Length1 && c != col ==> g[r, c] == old(g[r, c])
    {
      row := row - 1;
      insert, done, cnt, e, line := SouthCell(g, col, row, insert, y, done, cnt, e, line);
    }
    RollEnd(y, done, cnt, e, line);
  }

  /** One cell of the scan up column `col` from the bottom: the cells read so far are the
      first `m` cells of `y`, and `insert` steps up with `saturating_sub`. */
  method SouthCell(g: array2<Cell>, col: nat, row: nat, insert: nat, ghost y: seq<Cell>,
                   ghost done: seq<Cell>, ghost cnt: nat, ghost e: nat, ghost line: seq<Cell>)
    returns (next: nat, ghost done': seq<Cell>, ghost cnt': nat, ghost e': nat, ghost line': seq<Cell>)
    requires col < g.Length1 && row < g.Length0 && |y| == g.Length0
    requires |done| + cnt + e == g.Length0 - 1 - row
    requires insert == if |done| + cnt < g.Length0 then g.Length0 - 1 - |done| - cnt else 0
    requires Rolling(y, g.Length0 - 1 - row, done, cnt, e, line)
    requires forall r :: 0 <= r < g.Length0 ==> g[r, col] == line[g.Length0 - 1 - r]
    modifies g
    ensures |done'| + cnt' + e' == g.Length0 - row
    ensures next == if |done'| + cnt' < g.Length0 then g.Length0 - 1 - |done'| - cnt' else 0
    ensures Rolling(y, g.Length0 - row, done', cnt', e', line')
    ensures forall r :: 0 <= r < g.Length0 ==> g[r, col] == line'[g.Length0 - 1 - r]
    ensures forall r, c :: 0 <= r < g.Length0 && 0 <= c < g.Length1 && c != col ==> g[r, c] == old(g[r, c])
  {
    ghost var m := g.Length0 - 1 - row;
    RollRead(y, m, done, cnt, e, line);
    done', cnt', e', line' := done, cnt, e, line;
    if g[row, col] == Round {
      if insert != row {
        RollMove(y, m, done, cnt, e, line);
        MoveInColumn(g, col, row, insert);
        line' := line[|done| + cnt := Round][m := Empty];
      } else {
        RollKeep(y, m, done, cnt, line);
      }
      next, cnt' := if insert > 0 then insert - 1 else 0, cnt + 1;
    } else if g[row, col] == Cube {
      RollCube(y, m, done, cnt, e, line);
      next := if row > 0 then row - 1 else 0;
      done', cnt', e' := done + Rounds(cnt) + Empties(e) + [Cube], 0, 0;
    } else {
      RollEmpty(y, m, done, cnt, e, line);
      next, e' := insert, e + 1;
    }
  }


  /** A round rock moved from row `from` to row `to` of column `col`. */
  method MoveInColumn(g: array2<Cell>, col: nat, from: nat, to: nat)
    requires col < g.Length1 && from < g.Length0 && to < g.Length0 && from != to
    modifies g
    ensures g[to, col] == Round && g[from, col] == Empty
    ensures forall r, c :: 0 <= r < g.Length0 && 0 <= c < g.Length1 && (c != col || (r != from && r != to)) ==>
      g[r, c] == old(g[r, c])
  {
    g[to, col] := Round;
    g[from, col] := Empty;
  }

  /** A round rock moved from column `from` to column `to` of row `row`. */
  method MoveInRow(g: array2<Cell>, row: nat, from: nat, to: nat)
    requires row < g.Length0 && from < g.Length1 && to < g.Length1 && from != to
    modifies g
    ensures g[row, to] == Round && g[row, from] == Empty
    ensures forall r, c :: 0 <= r < g.Length0 && 0 <= c < g.Length1 && (r != row || (c != from && c != to)) ==>
      g[r, c] == old(g[r, c])
  {
    g[row, to] := Round;
    g[row, from] := Empty;
  }

  /** Column `c` read from the bottom. */
  lemma SouthColumn(b: Board, w: nat, c: nat, y: seq<Cell>)
    requires Rect(b, w) && c < w && y == Reverse(Col(b, w, c))
    ensures |y| == |b|
    ensures forall r :: 0 <= r < |b| ==> b[r][c] == y[|b| - 1 - r]
  {
    var x := Col(b, w, c);
    forall r | 0 <= r < |b| ensures b[r][c] == y[|b| - 1 - r] {
      assert y[|b| - 1 - r] == x[r];
    }
  }

  /** Row `r` read from the end. */
  lemma EastRow(b: Board, w: nat, r: nat, y: seq<Cell>)
    requires Rect(b, w) && r < |b| && y == Reverse(b[r])
    ensures |y| == w
    ensures forall c :: 0 <= c < w ==> b[r][c] == y[w - 1 - c]
  {
    forall c | 0 <= c < w ensures b[r][c] == y[w - 1 - c] {
      assert y[w - 1 - c] == b[r][|b[r]| - 1 - (w - 1 - c)];
    }
  }

  /** Rolling east is rolling the row read from the end. */
  lemma EastAt(b: Board, w: nat)
    requires Rect(b, w)
    ensures forall r, c :: 0 <= r < |b| && 0 <= c < w ==>
      EastF(b, w)[r][c] == Settle(Reverse(b[r]))[w - 1 - c]
  {
  }

  /** Column `col` of the platform `b` rolled south in place. */
  method RollSouthColumnOf(g: array2<Cell>, col: nat, ghost b: Board)
    requires |b| == g.Length0 > 0 && col < g.Length1 && Rect(b, g.Length1)
    requires forall r :: 0 <= r < g.Length0 ==> g[r, col] == b[r][col]
    modifies g
    ensures forall r :: 0 <= r < g.Length0 ==> g[r, col] == SouthF(b, g.Length1)[r][col]
    ensures forall r, c :: 0 <= r < g.Length0 && 0 <= c < g.Length1 && c != col ==> g[r, c] == old(g[r, c])
  {
    ghost var y := Reverse(Col(b, g.Length1, col));
    SouthColumn(b, g.Length1, col, y);
    RollSouthColumn(g, col, y);
  }

  /** `roll_south`: every column rolled south, in place. */
  method RollSouth(g: array2<Cell>)
    requires g.Length1 > 0 ==> g.Length0 > 0
    modifies g
    ensures Snapshot(g) == SouthF(old(Snapshot(g)), g.Length1)
  {
    ghost var b := Snapshot(g);
    var col := 0;
    while col < g.Length1
      invariant col <= g.Length1
      invariant forall r, c :: 0 <= r < g.Length0 && 0 <= c < g.Length1 ==>
        g[r, c] == (if c < col then SouthF(b, g.Length1)[r][c] else b[r][c])
    {
      RollSouthColumnOf(g, col, b);
      col := col + 1;
    }
    SnapshotIs(g, SouthF(b, g.Length1));
  }

  /** Rolling one row east in place (the body of `roll_east`'s outer loop). */
  method RollEastRow(g: array2<Cell>, row: nat, ghost y: seq<Cell>)
    requires row < g.Length0 && |y| == g.Length1 && g.Length1 > 0
    requires forall c :: 0 <= c < g.Length1 ==> g[row, c] == y[g.Length1 - 1 - c]
    modifies g
    ensures forall c :: 0 <= c < g.Length1 ==> g[row, c] == Settle(y)[g.Length1 - 1 - c]
    ensures forall r, c :: 0 <= r < g.Length0 && 0 <= c < g.Length1 && r != row ==> g[r, c] == old(g[r, c])
  {
    ghost var done: seq<Cell> := [];
    ghost var cnt, e := 0, 0;
    ghost var line := y;
    RollStart(y);
    var insert := g.Length1 - 1;
    var col := g.Length1;
    while col > 0
      invariant col <= g.Length1 && |done| + cnt + e == g.Length1 - col
      invariant insert == if |done| + cnt < g.Length1 then g.Length1 - 1 - |done| - cnt else 0
      invariant Rolling(y, g.Length1 - col, done, cnt, e, line)
      invariant forall c :: 0 <= c < g.Length1 ==> g[row, c] == line[g.Length1 - 1 - c]
      invariant forall r, c :: 0 <= r < g.Length0 && 0 <= c < g.Length1 && r != row ==> g[r, c] == old(g[r, c])
    {
      col := col - 1;
      insert, done, cnt, e, line := EastCell(g, row, col, insert, y, done, cnt, e, line);
    }
    RollEnd(y, done, cnt, e, line);
  }

  /** One cell of the scan along row `row` from its end, as `SouthCell` does for a column. */
  method EastCell(g: array2<Cell>, row: nat, col: nat, insert: nat, ghost y: seq<Cell>,
                  ghost done: seq<Cell>, ghost cnt: nat, ghost e: nat, ghost line: seq<Cell>)
    returns (next: nat, ghost done': seq<Cell>, ghost cnt': nat, ghost e': nat, ghost line': seq<Cell>)
    requires row < g.Length0 && col < g.Length1 && |y| == g.Length1
    requires |done| + cnt + e == g.Length1 - 1 - col
    requires insert == if |done| + cnt < g.Length1 then g.Length1 - 1 - |done| - cnt else 0
    requires Rolling(y, g.Length1 - 1 - col, done, cnt, e, line)
    requires forall c :: 0 <= c < g.Length1 ==> g[row, c] == line[g.Length1 - 1 - c]
    modifies g
    ensures |done'| + cnt' + e' == g.Length1 - col
    ensures next == if |done'| + cnt' < g.Length1 then g.Length1 - 1 - |done'| - cnt' else 0
    ensures Rolling(y, g.Length1 - col, done', cnt', e', line')
    ensures forall c :: 0 <= c < g.Length1 ==> g[row, c] == line'[g.Length1 - 1 - c]
    ensures forall r, c :: 0 <= r < g.Length0 && 0 <= c < g.Length1 && r != row ==> g[r, c] == old(g[r, c])
  {
    ghost var m := g.Length1 - 1 - col;
    RollRead(y, m, done, cnt, e, line);
    done', cnt', e', line' := done, cnt, e, line;
    if g[row, col] == Round {
      if insert != col {
        RollMove(y, m, done, cnt, e, line);
        MoveInRow(g, row, col, insert);
        line' := line[|done| + cnt := Round][m := Empty];
      } else {
        RollKeep(y, m, done, cnt, line);
      }
      next, cnt' := if insert > 0 then insert - 1 else 0, cnt + 1;
    } else if g[row, col] == Cube {
      RollCube(y, m, done, cnt, e, line);
      next := if col > 0 then col - 1 else 0;
      done', cnt', e' := done + Rounds(cnt) + Empties(e) + [Cube], 0, 0;
    } else {
      RollEmpty(y, m, done, cnt, e, line);
      next, e' := insert, e + 1;
    }
  }


  /** Row `row` of the platform `b` rolled east in place. */
  method RollEastRowOf(g: array2<Cell>, row: nat, ghost b: Board)
    requires |b| == g.Length0 && row < g.Length0 && g.Length1 > 0 && Rect(b, g.Length1)
    requires forall c :: 0 <= c < g.Length1 ==> g[row, c] == b[row][c]
    modifies g
    ensures forall c :: 0 <= c < g.Length1 ==> g[row, c] == EastF(b, g.Length1)[row][c]
    ensures forall r, c :: 0 <= r < g.Length0 && 0 <= c < g.Length1 && r != row ==> g[r, c] == old(g[r, c])
  {
    ghost var y := Reverse(b[row]);
    EastRow(b, g.Length1, row, y);
    RollEastRow(g, row, y);
    EastAt(b, g.Length1);
  }

  /** `roll_east`: every row rolled east, in place. */
  method RollEast(g: array2<Cell>)
    requires g.Length0 > 0 ==> g.Length1 > 0
    modifies g
    ensures Snapshot(g) == EastF(old(Snapshot(g)), g.Length1)
  {
    ghost var b := Snapshot(g);
    var row := 0;
    while row < g.Length0
      invariant row <= g.Length0
      invariant forall r, c :: 0 <= r < g.Length0 && 0 <= c < g.Length1 ==>
        g[r, c] == (if r < row then EastF(b, g.Length1)[r][c] else b[r][c])
    {
      RollEastRowOf(g, row, b);
      row := row + 1;
    }
    SnapshotIs(g, EastF(b, g.Length1));
  }

  /** `roll_cycle`: north, west, south, then east. */
  method RollCycle(g: array2<Cell>)
    requires g.Length1 > 0 ==> g.Length0 > 0
    requires g.Length0 > 0 ==> g.Length1 > 0
    modifies g
    ensures Snapshot(g) == CycleF(old(Snapshot(g)), g.Length1)
  {
    RollNorth(g);
    RollWest(g);
    RollSouth(g);
    RollEast(g);
  }

  /** Each column of the platform rolled north is that column rolled. */
  lemma NorthColumn(b: Board, w: nat, c: nat)
    requires Rect(b, w) && c < w
    ensures Col(NorthF(b, w), w, c) == Settle(Col(b, w, c))
  {
  }

  /** Rolling north keeps each column's number of round rocks and leaves every cube rock
      where it was. */
  lemma NorthKeepsRocks(b: Board, w: nat, c: nat)
    requires Rect(b, w) && c < w
    ensures Count(Col(NorthF(b, w), w, c)) == Count(Col(b, w, c))
    ensures forall r :: 0 <= r < |b| ==> (NorthF(b, w)[r][c] == Cube <==> b[r][c] == Cube)
  {
    NorthColumn(b, w, c);
    SettleKeepsRocks(Col(b, w, c));
  }

  /** After rolling north, every round rock sits on the top row, below a cube rock or below
      another round rock. */
  lemma NorthPacked(b: Board, w: nat)
    requires Rect(b, w)
    ensures forall c, r :: 0 <= c < w && 0 < r < |b| ==> PackedAt(Col(NorthF(b, w), w, c), r)
  {
    forall c | 0 <= c < w ensures forall r :: 0 < r < |b| ==> PackedAt(Col(NorthF(b, w), w, c), r) {
      NorthColumn(b, w, c);
      SettlePacked(Col(b, w, c));
    }
  }

  /** Rolling north twice is rolling north once. */
  lemma NorthIdempotent(b: Board, w: nat)
    requires Rect(b, w)
    ensures NorthF(NorthF(b, w), w) == NorthF(b, w)
  {
    var n := NorthF(b, w);
    var nn := NorthF(n, w);
    forall r | 0 <= r < |b| ensures nn[r] == n[r] {
      forall c | 0 <= c < w ensures nn[r][c] == n[r][c] {
        NorthColumn(b, w, c);
        SettleIdempotent(Col(b, w, c));
      }
    }
  }

  /** Rows become columns. */
  function Transpose(b: Board, w: nat): (t: Board)
    requires Rect(b, w)
    ensures |t| == w && Rect(t, |b|)
    ensures forall c, r :: 0 <= c < w && 0 <= r < |b| ==> t[c][r] == b[r][c]
  {
    seq(w, c requires 0 <= c < w => Col(b, w, c))
  }

  /** Every row read from the end. */
  function Mirror(b: Board, w: nat): (m: Board)
    requires Rect(b, w)
    ensures |m| == |b| && Rect(m, w)
    ensures forall r :: 0 <= r < |b| ==> m[r] == Reverse(b[r])
  {
    seq(|b|, r requires 0 <= r < |b| => Reverse(b[r]))
  }

  /** `roll_west` is `roll_north` on the transposed platform. */
  lemma WestIsNorthTransposed(b: Board, w: nat)
    requires Rect(b, w)
    ensures WestF(b, w) == Transpose(NorthF(Transpose(b, w), |b|), |b|)
  {
    var t := Transpose(b, w);
    var a := Transpose(NorthF(t, |b|), |b|);
    forall r | 0 <= r < |b| ensures a[r] == WestF(b, w)[r] {
      assert Col(t, |b|, r) == b[r];
    }
  }

  lemma RectReverse(b: Board, w: nat)
    requires Rect(b, w)
    ensures Rect(Reverse(b), w)
  {
    var f := Reverse(b);
    forall r | 0 <= r < |f| ensures |f[r]| == w {
      assert f[r] == b[|b| - 1 - r];
    }
  }

  /** A column of the platform turned upside down is the column read from the bottom. */
  lemma ColumnOfReverse(b: Board, w: nat, c: nat)
    requires Rect(b, w) && Rect(Reverse(b), w) && c < w
    ensures Col(Reverse(b), w, c) == Reverse(Col(b, w, c))
  {
    var f, x := Reverse(b), Col(b, w, c);
    forall i | 0 <= i < |b| ensures Col(f, w, c)[i] == Reverse(x)[i] {
      assert f[i] == b[|b| - 1 - i];
    }
  }

  /** `roll_south` is `roll_north` on the platform turned upside down. */
  lemma SouthIsNorthFlipped(b: Board, w: nat)
    requires Rect(b, w)
    ensures Rect(Reverse(b), w)
    ensures SouthF(b, w) == Reverse(NorthF(Reverse(b), w))
  {
    RectReverse(b, w);
    var n := NorthF(Reverse(b), w);
    var a := Reverse(n);
    forall r | 0 <= r < |b| ensures a[r] == SouthF(b, w)[r] {
      assert a[r] == n[|b| - 1 - r];
      forall c | 0 <= c < w ensures a[r][c] == SouthF(b, w)[r][c] {
        ColumnOfReverse(b, w, c);
      }
    }
  }

  /** `roll_east` is `roll_west` on the platform seen in a mirror. */
  lemma EastIsWestMirrored(b: Board, w: nat)
    requires Rect(b, w)
    ensures EastF(b, w) == Mirror(WestF(Mirror(b, w), w), w)
  {
  }

  /** The load of the first `k` rows: each round rock weighs the number of rows `h` less
      its row. */
  function RowsLoad(b: Board, h: nat, k: nat): nat
    requires k <= |b| <= h
  {
    if k == 0 then 0 else RowsLoad(b, h, k - 1) + Count(b[k - 1]) * (h - (k - 1))
  }

  /** `north_load`: the round rocks of each row, times the number of rows less the row. */
  function NorthLoad(b: Board): nat
  {
    RowsLoad(b, |b|, |b|)
  }

  /** The load of the first `k` cells of each of the first `n` columns. */
  function ColumnsLoad(b: Board, w: nat, h: nat, k: nat, n: nat): nat
    requires Rect(b, w) && k <= |b| <= h && n <= w
  {
    if n == 0 then 0 else ColumnsLoad(b, w, h, k, n - 1) + RoundLoad(Col(b, w, n - 1)[..k], h)
  }

  lemma AddWeighted(p: int, q: int, r1: int, r0: int, a: int, i: int, m: int)
    requires p == q + a * m && r1 == r0 + i * m
    ensures p + r1 == q + r0 + (a + i) * m
  {
    assert (a + i) * m == a * m + i * m;
  }

  /** Cell `k` of column `c` weighs `h - k` when it is a round rock. */
  lemma ColumnCellLoad(b: Board, w: nat, h: nat, k: nat, c: nat)
    requires Rect(b, w) && k < |b| <= h && c < w
    ensures RoundLoad(Col(b, w, c)[..k + 1], h) ==
      RoundLoad(Col(b, w, c)[..k], h) + (if b[k][c] == Round then 1 else 0) * (h - k)
  {
    var x := Col(b, w, c)[..k + 1];
    assert x[..k] == Col(b, w, c)[..k];
    assert x[k] == b[k][c];
  }

  /** Taking one more row into every column adds that row's round rocks at its weight. */
  lemma {:induction false} ColumnsLoadStep(b: Board, w: nat, h: nat, k: nat, n: nat)
    requires Rect(b, w) && k < |b| <= h && n <= w
    ensures ColumnsLoad(b, w, h, k + 1, n) == ColumnsLoad(b, w, h, k, n) + Count(b[k][..n]) * (h - k)
  {
    if n > 0 {
      var c := n - 1;
      ColumnsLoadStep(b, w, h, k, c);
      ColumnCellLoad(b, w, h, k, c);
      assert b[k][..n][..c] == b[k][..c];
      var ind := if b[k][c] == Round then 1 else 0;
      assert Count(b[k][..n]) == Count(b[k][..c]) + ind;
      assert ColumnsLoad(b, w, h, k + 1, n) ==
        ColumnsLoad(b, w, h, k + 1, c) + RoundLoad(Col(b, w, c)[..k + 1], h);
      assert ColumnsLoad(b, w, h, k, n) == ColumnsLoad(b, w, h, k, c) + RoundLoad(Col(b, w, c)[..k], h);
      AddWeighted(ColumnsLoad(b, w, h, k + 1, c), ColumnsLoad(b, w, h, k, c),
        RoundLoad(Col(b, w, c)[..k + 1], h), RoundLoad(Col(b, w, c)[..k], h), Count(b[k][..c]), ind, h - k);
    }
  }

  lemma {:induction false} RowsLoadByColumns(b: Board, w: nat, h: nat, k: nat)
    requires Rect(b, w) && k <= |b| <= h
    ensures RowsLoad(b, h, k) == ColumnsLoad(b, w, h, k, w)
  {
    if k == 0 {
      ColumnsLoadEmpty(b, w, h, w);
    } else {
      var j := k - 1;
      RowsLoadByColumns(b, w, h, j);
      ColumnsLoadStep(b, w, h, j, w);
      assert b[j][..w] == b[j];
      assert RowsLoad(b, h, k) == RowsLoad(b, h, j) + Count(b[j]) * (h - j);
    }
  }

  lemma {:induction false} ColumnsLoadEmpty(b: Board, w: nat, h: nat, n: nat)
    requires Rect(b, w) && |b| <= h && n <= w
    ensures ColumnsLoad(b, w, h, 0, n) == 0
  {
    if n > 0 {
      ColumnsLoadEmpty(b, w, h, n - 1);
    }
  }

  /** The load read row by row is the load read column by column. */
  lemma NorthLoadByColumns(b: Board, w: nat)
    requires Rect(b, w)
    ensures NorthLoad(b) == ColumnsLoad(b, w, |b|, |b|, w)
  {
    RowsLoadByColumns(b, w, |b|, |b|);
  }

  /** The bytes of `line` as cells. */
  function Cells(line: string): (x: seq<Cell>)
    ensures |x| == |line| && forall i :: 0 <= i < |line| ==> x[i] == CellOf(line[i])
  {
    seq(|line|, i requires 0 <= i < |line| => CellOf(line[i]))
  }

  /** `rows` rows of `w` cells cut from `flat`, as `Grid::from_vec` lays them out. */
  function Reshape(flat: string, w: nat, rows: nat): (b: Board)
    requires |flat| == rows * w
    ensures |b| == rows && Rect(b, w)
  {
    if rows == 0 then [] else [Cells(flat[..w])] + Reshape(flat[w..], w, rows - 1)
  }

  /** The grid built from the input: the lines' bytes run together and cut into rows of
      the first line's width. There is none for an input without lines (the first line is
      indexed) or when the bytes do not fill whole rows (the grid asserts that they do); a
      width of zero gives the empty grid when there are no bytes at all. */
  function Platform(input: string): (b: Option<Board>)
    ensures b.Some? ==> Lines(input) != [] && Rect(b.value, |Lines(input)[0]|)
    ensures b.Some? && |b.value| == 0 ==> |Lines(input)[0]| == 0
    ensures b.Some? && |b.value| > 0 ==> |Lines(input)[0]| > 0
  {
    var lines := Lines(input);
    if lines == [] then None
    else
      var w, flat := |lines[0]|, Concat(lines);
      if w == 0 then (if flat == [] then Some([]) else None)
      else if (|flat| / w) * w != |flat| then None
      else Some(Reshape(flat, w, |flat| / w))
  }

  /** `history.iter().position(|other| *other == grid)`: the first earlier state equal to
      the current one. */
  function Position(history: seq<Board>, b: Board): (r: Option<nat>)
    ensures r.Some? ==> r.value < |history| && history[r.value] == b
    ensures r.Some? ==> forall j :: 0 <= j < r.value ==> history[j] != b
    ensures r.None? ==> forall j :: 0 <= j < |history| ==> history[j] != b
  {
    if history == [] then None
    else if history[0] == b then Some(0)
    else
      match Position(history[1..], b)
      case None => None
      case Some(k) => Some(k + 1)
  }

  /** Applying `f` `a + k` times is applying it `k` times to the result of `a` times. */
  lemma {:induction false} RepeatShift<T>(f: T -> T, x: T, a: nat, k: nat)
    ensures Repeat(f, x, a + k) == Repeat(f, Repeat(f, x, a), k)
  {
    if k > 0 {
      RepeatShift(f, x, a, k - 1);
    }
  }

  /** Once the result after `s + p` steps is the result after `s`, further rounds of `p`
      steps change nothing. */
  lemma {:induction false} RepeatPeriodic<T>(f: T -> T, x: T, s: nat, p: nat, m: nat, q: nat)
    requires Repeat(f, x, s + p) == Repeat(f, x, s)
    ensures Repeat(f, x, s + m * p + q) == Repeat(f, x, s + q)
  {
    if m > 0 {
      var k := (m - 1) * p + q;
      assert s + m * p + q == (s + p) + k;
      RepeatShift(f, x, s + p, k);
      RepeatShift(f, x, s, k);
      RepeatPeriodic(f, x, s, p, m - 1, q);
    }
  }

  lemma Euclid(j: nat, p: nat)
    requires p > 0
    ensures j == (j / p) * p + j % p && j % p < p
  {
  }

  /** After `s` steps, with period `p`, step `s + j` repeats step `s + j % p`. */
  lemma RepeatMod<T>(f: T -> T, x: T, s: nat, p: nat, j: nat)
    requires p > 0 && Repeat(f, x, s + p) == Repeat(f, x, s)
    ensures Repeat(f, x, s + j) == Repeat(f, x, s + j % p)
  {
    Euclid(j, p);
    RepeatPeriodic(f, x, s, p, j / p, j % p);
  }

  /** The shortcut on the first repeat, for any step function: with the results after
      `prev + 1` and `n + 1` steps equal, the result after `cycles` steps is the one after
      `prev + 1 + (cycles - prev - 1) % (n - prev)`. */
  lemma RepeatShortcut<T>(f: T -> T, x: T, prev: nat, n: nat, cycles: nat)
    requires prev < n < cycles
    requires Repeat(f, x, n + 1) == Repeat(f, x, prev + 1)
    ensures Repeat(f, x, cycles) == Repeat(f, x, prev + 1 + (cycles - prev - 1) % (n - prev))
  {
    var s, p, j := prev + 1, n - prev, cycles - prev - 1;
    assert s + p == n + 1 && s + j == cycles;
    RepeatMod(f, x, s, p, j);
  }

  /** The same for spin cycles: the state after `cycles` spins is the remembered state the
      source returns the load of. */
  lemma Shortcut(b: Board, w: nat, prev: nat, n: nat, cycles: nat)
    requires Rect(b, w) && prev < n < cycles
    requires Iterate(b, w, n + 1) == Iterate(b, w, prev + 1)
    ensures Iterate(b, w, cycles) == Iterate(b, w, prev + 1 + (cycles - prev - 1) % (n - prev))
  {
    RepeatShortcut(Spin(w), b, prev, n, cycles);
  }

  /** `history[k]` is the state after `k + 1` spins. */
  predicate Remembered(history: seq<Board>, b: Board, w: nat)
    requires Rect(b, w)
  {
    forall k :: 0 <= k < |history| ==> history[k] == Iterate(b, w, k + 1)
  }

  lemma Remember(history: seq<Board>, b: Board, w: nat, state: Board)
    requires Rect(b, w) && Remembered(history, b, w) && state == Iterate(b, w, |history| + 1)
    ensures Remembered(history + [state], b, w)
  {
  }

  /** With `history[k]` the result after `k + 1` steps and the result after `n + 1` steps
      found at `prev`, the entry the source picks is the result after `cycles` steps. */
  lemma RepeatFoundIn<T>(history: seq<T>, f: T -> T, x: T, prev: nat, n: nat, cycles: nat, pos: nat)
    requires forall k :: 0 <= k < |history| ==> history[k] == Repeat(f, x, k + 1)
    requires n == |history| && prev < n < cycles && history[prev] == Repeat(f, x, n + 1)
    requires pos == prev + (cycles - prev - 1) % (n - prev)
    ensures pos < n && history[pos] == Repeat(f, x, cycles)
  {
    RepeatShortcut(f, x, prev, n, cycles);
    Euclid(cycles - prev - 1, n - prev);
    assert history[pos] == Repeat(f, x, pos + 1);
  }

  /** On the first repeat at spin `n` of the state remembered at `prev`, the remembered
      state the source picks is the state after `cycles` spins. */
  lemma RepeatFound(history: seq<Board>, b: Board, w: nat, prev: nat, n: nat, cycles: nat, pos: nat)
    requires Rect(b, w) && Remembered(history, b, w) && n == |history| && prev < n < cycles
    requires history[prev] == Iterate(b, w, n + 1)
    requires pos == prev + (cycles - prev - 1) % (n - prev)
    ensures pos < n && history[pos] == Iterate(b, w, cycles)
  {
    assert forall k :: 0 <= k < |history| ==> history[k] == Repeat(Spin(w), b, k + 1);
    RepeatFoundIn(history, Spin(w), b, prev, n, cycles, pos);
  }

  /** `get_north_load_after_cycles`: spins the grid in place, keeping a copy of each state,
      until a state repeats or `cycles` spins are done. The answer is the load after
      `cycles` spins; there is none when the input gives no grid. */
  method GetNorthLoadAfterCycles(input: string, cycles: nat) returns (r: Option<nat>)
    ensures r.None? <==> Platform(input).None?
    ensures r.Some? ==> r.value == NorthLoad(Iterate(Platform(input).value, |Lines(input)[0]|, cycles))
  {
    var platform := Platform(input);
    if platform.None? {
      return None;
    }
    var b := platform.value;
    var width := |Lines(input)[0]|;
    var g := new Cell[|b|, width]((i, j) => if 0 <= i < |b| && 0 <= j < |b[i]| then b[i][j] else Empty);
    SnapshotIs(g, b);
    var history: seq<Board> := [];
    var n := 0;
    while n < cycles
      invariant n <= cycles && |history| == n
      invariant Snapshot(g) == Iterate(b, width, n)
      invariant Remembered(history, b, width)
    {
      RollCycle(g);
      IterateStep(b, width, n);
      var state := Snapshot(g);
      var found := Position(history, state);
      if found.Some? {
        var prev := found.value;
        var pos := prev + (cycles - prev - 1) % (n - prev);
        RepeatFound(history, b, width, prev, n, cycles, pos);
        var load := NorthLoad(history[pos]);
        assert load == NorthLoad(Iterate(b, width, cycles));
        return Some(load);
      }
      Remember(history, b, width, state);
      history := history + [state];
      n := n + 1;
    }
    var load := NorthLoad(Snapshot(g));
    assert load == NorthLoad(Iterate(b, width, cycles));
    return Some(load);
  }

  /** `solve`: the load after a billion spin cycles. */
  method Solve(input: string) returns (r: Option<nat>)
    ensures r.None? <==> Platform(input).None?
    ensures r.Some? ==> r.value == NorthLoad(Iterate(Platform(input).value, |Lines(input)[0]|, 1000000000))
  {
    r := GetNorthLoadAfterCycles(input, 1000000000);
  }
}
