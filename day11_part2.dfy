/** Day 11, part 2: galaxies '#' in an image whose empty rows and columns are each widened by
    an expansion; the answer is the sum of the Manhattan distances over all pairs. */
module Day11Part2 {
  import opened Text

  predicate AllDots(line: string)
  {
    forall i :: 0 <= i < |line| ==> line[i] == '.'
  }

  predicate Increasing(s: seq<nat>)
  {
    forall i, j :: 0 <= i < j < |s| ==> s[i] < s[j]
  }

  /** `find_blank_rows`, from row `n` on: the rows made only of '.'. */
  function BlankRowsFrom(grid: seq<string>, n: nat): (r: seq<nat>)
    requires n <= |grid|
    ensures forall m: nat :: m in r <==> n <= m < |grid| && AllDots(grid[m])
    ensures Increasing(r)
    ensures forall i :: 0 <= i < |r| ==> n <= r[i]
    decreases |grid| - n
  {
    if n == |grid| then []
    else (if AllDots(grid[n]) then [n] else []) + BlankRowsFrom(grid, n + 1)
  }

  function FindBlankRows(grid: seq<string>): (r: seq<nat>)
    ensures forall m: nat :: m in r <==> m < |grid| && AllDots(grid[m])
    ensures Increasing(r)
  {
    BlankRowsFrom(grid, 0)
  }

  /** Some row holds something other than '.' at column `c`, among the first `k` rows. */
  predicate Occupied(grid: seq<string>, k: nat, c: nat)
    requires k <= |grid|
  {
    exists row :: 0 <= row < k && c < |grid[row]| && grid[row][c] != '.'
  }

  /** A line longer than the first one with something other than '.' past its end: the
      fold's `acc[n] = true` is then out of bounds and panics. */
  predicate Overflows(grid: seq<string>)
    requires grid != []
  {
    exists row, c :: 0 <= row < |grid| && |grid[0]| <= c < |grid[row]| && grid[row][c] != '.'
  }

  /** The blank columns below `c`: those no row occupies. */
  function BlankColumnsBelow(grid: seq<string>, c: nat): seq<nat>
    requires grid != []
  {
    if c == 0 then []
    else BlankColumnsBelow(grid, c - 1) + (if Occupied(grid, |grid|, c - 1) then [] else [c - 1])
  }

  /** Exactly the columns below `c` that no row occupies, in increasing order. */
  lemma {:induction false} BlankColumns(grid: seq<string>, c: nat)
    requires grid != []
    ensures var r := BlankColumnsBelow(grid, c);
      (forall m: nat :: m in r <==> m < c && !Occupied(grid, |grid|, m)) &&
      Increasing(r) && forall i :: 0 <= i < |r| ==> r[i] < c
  {
    if c > 0 {
      BlankColumns(grid, c - 1);
    }
  }

  lemma OccupiedNext(grid: seq<string>, row: nat, c: nat)
    requires row < |grid|
    ensures Occupied(grid, row + 1, c) <==>
      Occupied(grid, row, c) || (c < |grid[row]| && grid[row][c] != '.')
  {
    if Occupied(grid, row + 1, c) && !Occupied(grid, row, c) {
      var rr :| 0 <= rr < row + 1 && c < |grid[rr]| && grid[rr][c] != '.';
      assert rr == row;
    }
  }

  /** One step of the fold: mark the columns `line` occupies; false where the line has
      something other than '.' past the end of `acc`. */
  method MarkLine(acc: array<bool>, line: string) returns (ok: bool)
    modifies acc
    ensures ok <==> forall c :: acc.Length <= c < |line| ==> line[c] == '.'
    ensures ok ==> forall c :: 0 <= c < acc.Length ==>
      (acc[c] <==> old(acc[c]) || (c < |line| && line[c] != '.'))
  {
    var n := 0;
    while n < |line|
      invariant 0 <= n <= |line|
      invariant forall c :: 0 <= c < acc.Length ==>
        (acc[c] <==> old(acc[c]) || (c < n && line[c] != '.'))
      invariant forall c :: acc.Length <= c < n ==> line[c] == '.'
    {
      if line[n] != '.' {
        if n >= acc.Length {
          return false;
        }
        acc[n] := true;
      }
      n := n + 1;
    }
    return true;
  }

  /** The positions of the flags left unset, in order (`enumerate`, `filter(!x)`, `map`). */
  function Unmarked(flags: seq<bool>): seq<nat>
  {
    if flags == [] then []
    else
      var n := |flags| - 1;
      Unmarked(flags[..n]) + (if flags[n] then [] else [n])
  }

  /** Flags set exactly on the occupied columns leave the blank columns unset. */
  lemma {:induction false} UnmarkedBlank(flags: seq<bool>, grid: seq<string>)
    requires grid != []
    requires forall c :: 0 <= c < |flags| ==> flags[c] == Occupied(grid, |grid|, c)
    ensures Unmarked(flags) == BlankColumnsBelow(grid, |flags|)
  {
    if flags != [] {
      var n := |flags| - 1;
      assert forall c :: 0 <= c < n ==> flags[..n][c] == flags[c];
      UnmarkedBlank(flags[..n], grid);
    }
  }

  /** `find_blank_cols`: the fold marking every occupied column in a vector as long as the
      first line, then the unmarked columns in order. */
  method FindBlankCols(grid: seq<string>) returns (r: Option<seq<nat>>)
    ensures grid == [] ==> r.None?
    ensures grid != [] ==> (r.None? <==> Overflows(grid))
    ensures r.Some? ==> grid != [] && r.value == BlankColumnsBelow(grid, |grid[0]|)
  {
    if grid == [] {
      return None;
    }
    var len := |grid[0]|;
    var acc := new bool[len](_ => false);
    var row := 0;
    while row < |grid|
      invariant 0 <= row <= |grid|
      invariant forall c :: 0 <= c < len ==> (acc[c] <==> Occupied(grid, row, c))
      invariant forall rr, c :: 0 <= rr < row && len <= c < |grid[rr]| ==> grid[rr][c] == '.'
    {
      var ok := MarkLine(acc, grid[row]);
      if !ok {
        return None;
      }
      forall c | 0 <= c < len ensures acc[c] <==> Occupied(grid, row + 1, c) {
        OccupiedNext(grid, row, c);
      }
      row := row + 1;
    }
    UnmarkedBlank(acc[..], grid);
    return Some(Unmarked(acc[..]));
  }

  /** How many of `s` lie below `v` (`filter(|m| m < v).count()`). */
  function CountBelow(s: seq<nat>, v: nat): (k: nat)
    ensures k <= |s|
  {
    if s == [] then 0 else (if s[0] < v then 1 else 0) + CountBelow(s[1..], v)
  }

  /** How many of `s` lie in `a..b`. */
  function CountBetween(s: seq<nat>, a: nat, b: nat): nat
  {
    if s == [] then 0 else (if a <= s[0] < b then 1 else 0) + CountBetween(s[1..], a, b)
  }

  lemma {:induction false} CountBelowSplit(s: seq<nat>, a: nat, b: nat)
    requires a <= b
    ensures CountBelow(s, b) == CountBelow(s, a) + CountBetween(s, a, b)
  {
    if s != [] { CountBelowSplit(s[1..], a, b); }
  }

  /** A coordinate after expansion: every blank line before it adds `expansion`. */
  function Expand(v: nat, blanks: seq<nat>, expansion: nat): nat
  {
    v + CountBelow(blanks, v) * expansion
  }

  /** Expansion widens the gap between two coordinates by `expansion` for every blank line
      from the smaller up to the larger. */
  lemma ExpandGap(a: nat, b: nat, blanks: seq<nat>, expansion: nat)
    requires a <= b
    ensures Expand(b, blanks, expansion) - Expand(a, blanks, expansion)
      == (b - a) + CountBetween(blanks, a, b) * expansion
  {
    CountBelowSplit(blanks, a, b);
    assert CountBelow(blanks, b) * expansion
      == CountBelow(blanks, a) * expansion + CountBetween(blanks, a, b) * expansion;
  }

  /** Expansion keeps the order of coordinates strictly, so distinct galaxies stay distinct. */
  lemma ExpandMonotone(a: nat, b: nat, blanks: seq<nat>, expansion: nat)
    requires a < b
    ensures Expand(a, blanks, expansion) < Expand(b, blanks, expansion)
  {
    ExpandGap(a, b, blanks, expansion);
  }

  /** The galaxies of one line at expanded height `y`, among its first `k` characters. */
  function LineGalaxies(line: string, k: nat, y: nat, blankCols: seq<nat>, expansion: nat): (r: seq<(nat, nat)>)
    requires k <= |line|
    ensures forall p :: p in r <==>
      p.1 == y && exists c :: 0 <= c < k && line[c] != '.' && p.0 == Expand(c, blankCols, expansion)
  {
    if k == 0 then []
    else (LineGalaxies(line, k - 1, y, blankCols, expansion)
      + (if line[k - 1] != '.' then [(Expand(k - 1, blankCols, expansion), y)] else []))
  }

  /** `get_galaxies`, over the first `k` lines: every character other than '.' as a galaxy
      at its expanded column and row. */
  function Galaxies(grid: seq<string>, k: nat, blankRows: seq<nat>, blankCols: seq<nat>, expansion: nat): (r: seq<(nat, nat)>)
    requires k <= |grid|
    ensures forall p :: p in r <==>
      exists row, c :: 0 <= row < k && 0 <= c < |grid[row]| && grid[row][c] != '.'
        && p == (Expand(c, blankCols, expansion), Expand(row, blankRows, expansion))
  {
    if k == 0 then []
    else
      var rest := Galaxies(grid, k - 1, blankRows, blankCols, expansion);
      var line := LineGalaxies(grid[k - 1], |grid[k - 1]|, Expand(k - 1, blankRows, expansion), blankCols, expansion);
      assert forall p :: p in line <==>
        exists c :: 0 <= c < |grid[k - 1]| && grid[k - 1][c] != '.'
          && p == (Expand(c, blankCols, expansion), Expand(k - 1, blankRows, expansion));
      rest + line
  }

  function AbsDiff(a: nat, b: nat): nat
  {
    if a < b then b - a else a - b
  }

  function Distance(p: (nat, nat), q: (nat, nat)): nat
  {
    AbsDiff(p.0, q.0) + AbsDiff(p.1, q.1)
  }

  /** The distances from `p` to every galaxy of `s`. */
  function DistancesFrom(s: seq<(nat, nat)>, p: (nat, nat)): nat
  {
    if s == [] then 0 else Distance(p, s[0]) + DistancesFrom(s[1..], p)
  }

  /** The distances over all pairs: each galaxy with every galaxy after it. */
  function PairSum(g: seq<(nat, nat)>): nat
  {
    if g == [] then 0 else DistancesFrom(g[1..], g[0]) + PairSum(g[1..])
  }

  lemma {:induction false} DistancesAppend(s: seq<(nat, nat)>, x: (nat, nat), p: (nat, nat))
    ensures DistancesFrom(s + [x], p) == DistancesFrom(s, p) + Distance(p, x)
  {
    if s != [] {
      assert (s + [x])[1..] == s[1..] + [x];
      DistancesAppend(s[1..], x, p);
    }
  }

  /** One more galaxy adds its distance to every earlier one: the pair sum counts each
      unordered pair once, whatever the order of the galaxies. */
  lemma {:induction false} PairSumAppend(g: seq<(nat, nat)>, x: (nat, nat))
    ensures PairSum(g + [x]) == PairSum(g) + DistancesFrom(g, x)
  {
    if g != [] {
      assert (g + [x])[1..] == g[1..] + [x];
      assert (g + [x])[0] == g[0];
      DistancesAppend(g[1..], x, g[0]);
      PairSumAppend(g[1..], x);
    }
  }

  /** `get_expanded`: the pair sum of the expanded galaxies; none when the image has no line,
      a line overflows the first one's width, or there is no galaxy (`len() - 1` underflows). */
  method GetExpanded(input: string, expansion: nat) returns (r: Option<nat>)
    ensures Lines(input) == [] ==> r.None?
    ensures Lines(input) != [] && Overflows(Lines(input)) ==> r.None?
    ensures Lines(input) != [] && !Overflows(Lines(input)) ==>
      var grid := Lines(input);
      var g := Galaxies(grid, |grid|, FindBlankRows(grid), BlankColumnsBelow(grid, |grid[0]|), expansion);
      r == if g == [] then None else Some(PairSum(g))
  {
    var grid := Lines(input);
    var blankRows := FindBlankRows(grid);
    var blankCols := FindBlankCols(grid);
    if blankCols.None? {
      return None;
    }
    var g := Galaxies(grid, |grid|, blankRows, blankCols.value, expansion);
    if g == [] {
      return None;
    }
    return Some(PairSum(g));
  }

  /** `solve`: every blank row and column a million wide. */
  method Solve(input: string) returns (r: Option<nat>)
    ensures Lines(input) != [] && !Overflows(Lines(input)) ==>
      var grid := Lines(input);
      var g := Galaxies(grid, |grid|, FindBlankRows(grid), BlankColumnsBelow(grid, |grid[0]|), 999999);
      r == if g == [] then None else Some(PairSum(g))
    ensures Lines(input) == [] || Overflows(Lines(input)) ==> r.None?
  {
    r := GetExpanded(input, 1000000 - 1);
  }
}
