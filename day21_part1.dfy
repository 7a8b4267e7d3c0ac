/** Day 21, part 1: the garden plots an elf can stand on after exactly a number of steps.
    Each step moves to one of the four orthogonal neighbours that is a plot ('.' or the
    start 'S') inside the grid; the positions after a step are all those one step from a
    position after the previous one. */
module Day21Part1 {
  import opened Text
  import opened Grids

  type Pos = (int, int)

  /** The grid, row by row. */
  type Garden = seq<string>

  /** `is_valid_pos`: a plot inside the grid. */
  predicate IsValidPos(g: Garden, p: Pos): (r: bool)
    ensures r <==> 0 <= p.0 < |g| && 0 <= p.1 < |g[p.0]| && g[p.0][p.1] in {'.', 'S'}
  {
    Get(g, p.0, p.1) == Some('.') || Get(g, p.0, p.1) == Some('S')
  }

  /** The four orthogonal neighbours, in the order `reachable_neighbors` lists them. */
  function Around(p: Pos): seq<Pos>
  {
    [(p.0 + 1, p.1), (p.0 - 1, p.1), (p.0, p.1 + 1), (p.0, p.1 - 1)]
  }

  predicate Adjacent(p: Pos, q: Pos)
  {
    q in Around(p)
  }

  /** The positions of `ps` that are plots, in order. */
  function KeepValid(g: Garden, ps: seq<Pos>): (r: seq<Pos>)
    ensures |r| <= |ps|
    ensures forall q :: q in r <==> q in ps && IsValidPos(g, q)
  {
    if ps == [] then []
    else (if IsValidPos(g, ps[0]) then [ps[0]] else []) + KeepValid(g, ps[1..])
  }

  /** `reachable_neighbors`: at most four positions, exactly the neighbours that are plots. */
  function Neighbours(g: Garden, p: Pos): (r: seq<Pos>)
    ensures |r| <= 4
    ensures forall q :: q in r <==> Adjacent(p, q) && IsValidPos(g, q)
  {
    KeepValid(g, Around(p))
  }

  /** One step of the fold: every position one step from a position in `acc`. */
  function Step(g: Garden, acc: set<Pos>): set<Pos>
  {
    set p, q | p in acc && q in Around(p) && IsValidPos(g, q) :: q
  }

  /** The positions after `n` steps from `start`. */
  function Reach(g: Garden, start: Pos, n: nat): set<Pos>
  {
    if n == 0 then {start} else Step(g, Reach(g, start, n - 1))
  }

  /** A step is the union of `reachable_neighbors` over the positions before it. */
  lemma StepNeighbours(g: Garden, acc: set<Pos>, q: Pos)
    ensures q in Step(g, acc) <==> exists p :: p in acc && q in Neighbours(g, p)
  {
    if q in Step(g, acc) {
      var p := StepFrom(g, acc, q);
      assert q in Neighbours(g, p);
    }
  }

  /** A position one step on comes from a position of `acc` next to it. */
  lemma StepFrom(g: Garden, acc: set<Pos>, q: Pos) returns (p: Pos)
    requires q in Step(g, acc)
    ensures p in acc && Adjacent(p, q) && IsValidPos(g, q)
  {
    p :| p in acc && q in Around(p) && IsValidPos(g, q);
  }

  /** A plot next to a position of `acc` is one step on. */
  lemma StepInto(g: Garden, acc: set<Pos>, p: Pos, q: Pos)
    requires p in acc && Adjacent(p, q) && IsValidPos(g, q)
    ensures q in Step(g, acc)
  {
  }

  /** With no steps only the start is reached. */
  lemma ReachZero(g: Garden, start: Pos)
    ensures |Reach(g, start, 0)| == 1
  {
  }

  /** After at least one step every position reached is a plot. */
  lemma ReachPlots(g: Garden, start: Pos, n: nat, q: Pos)
    requires n > 0 && q in Reach(g, start, n)
    ensures IsValidPos(g, q)
  {
    var p := StepFrom(g, Reach(g, start, n - 1), q);
  }

  /** Whether row plus column is odd. */
  function Parity(p: Pos): (r: nat)
    ensures r < 2
  {
    (p.0 + p.1) % 2
  }

  /** A step changes the parity. */
  lemma ParityFlips(p: Pos, q: Pos)
    requires Adjacent(p, q)
    ensures Parity(q) == 1 - Parity(p)
  {
  }

  lemma NextParity(previous: nat, first: nat, n: nat)
    requires n > 0 && previous == (first + n - 1) % 2
    ensures 1 - previous == (first + n) % 2
  {
  }

  /** Each step changes the parity of row plus column, so after `n` steps it is the start's
      parity plus `n`. */
  lemma {:induction false} ReachParity(g: Garden, start: Pos, n: nat, q: Pos)
    requires q in Reach(g, start, n)
    ensures Parity(q) == (Parity(start) + n) % 2
  {
    if n > 0 {
      var p := StepFrom(g, Reach(g, start, n - 1), q);
      ReachParity(g, start, n - 1, p);
      ParityFlips(p, q);
      NextParity(Parity(p), Parity(start), n);
    }
  }

  /** A walk: each position next to the one before and a plot, the first excepted. */
  predicate IsWalk(g: Garden, w: seq<Pos>)
  {
    forall i :: 0 < i < |w| ==> Adjacent(w[i - 1], w[i]) && IsValidPos(g, w[i])
  }

  /** Every position after `n` steps ends a walk of `n` steps from the start. */
  lemma {:induction false} ReachHasWalk(g: Garden, start: Pos, n: nat, q: Pos) returns (w: seq<Pos>)
    requires q in Reach(g, start, n)
    ensures |w| == n + 1 && w[0] == start && w[n] == q && IsWalk(g, w)
  {
    if n == 0 {
      w := [q];
    } else {
      var p := StepFrom(g, Reach(g, start, n - 1), q);
      var front := ReachHasWalk(g, start, n - 1, p);
      w := front + [q];
      forall i | 0 < i < |w| ensures Adjacent(w[i - 1], w[i]) && IsValidPos(g, w[i]) {
        if i < n {
          assert w[i - 1] == front[i - 1] && w[i] == front[i];
        }
      }
    }
  }

  /** The end of every walk from the start is reached after as many steps as the walk has. */
  lemma {:induction false} WalkReaches(g: Garden, start: Pos, w: seq<Pos>)
    requires |w| > 0 && w[0] == start && IsWalk(g, w)
    ensures w[|w| - 1] in Reach(g, start, |w| - 1)
  {
    var n := |w| - 1;
    if n > 0 {
      var front := w[..n];
      forall i | 0 < i < |front| ensures Adjacent(front[i - 1], front[i]) && IsValidPos(g, front[i]) {
        assert front[i - 1] == w[i - 1] && front[i] == w[i];
      }
      WalkReaches(g, start, front);
      assert front[n - 1] == w[n - 1];
      StepInto(g, Reach(g, start, n - 1), w[n - 1], w[n]);
    }
  }

  /** Stepping away and back: from a plot the elf can return in two steps. */
  lemma AdjacentBack(p: Pos, q: Pos)
    requires Adjacent(p, q)
    ensures Adjacent(q, p)
  {
  }

  /** Once the elf is on a plot, every position reached stays reachable two steps later
      (step to where it came from and back). */
  lemma ReachTwoMore(g: Garden, start: Pos, n: nat, q: Pos)
    requires IsValidPos(g, start) && n > 0 && q in Reach(g, start, n)
    ensures q in Reach(g, start, n + 2)
  {
    var p := StepFrom(g, Reach(g, start, n - 1), q);
    assert IsValidPos(g, p) by {
      if n > 1 {
        ReachPlots(g, start, n - 1, p);
      }
    }
    AdjacentBack(p, q);
    StepInto(g, Reach(g, start, n), q, p);
    StepInto(g, Reach(g, start, n + 1), p, q);
  }

  /** The grid and the start read from the input: the lines' bytes run together into rows
      of the first line's width, and the start is the first 'S' in row order. There is none
      for an input without lines (the first line is indexed), when the bytes do not fill
      whole rows of at least one cell (the grid asserts that they do, and an empty grid has
      no 'S'), or when there is no 'S' (the source unwraps). */
  function ReadGarden(input: string): (r: Option<(Garden, Pos)>)
    ensures r.Some? ==> Lines(input) != [] && Get(r.value.0, r.value.1.0, r.value.1.1) == Some('S')
    ensures r.Some? ==> forall row :: 0 <= row < |r.value.0| ==> |r.value.0[row]| == |Lines(input)[0]|
  {
    var lines := Lines(input);
    if lines == [] || |lines[0]| == 0 then None else Layout(Concat(lines), |lines[0]|)
  }

  /** `Grid::from_vec` of the bytes with `cols` columns, and the first 'S' in it. */
  function Layout(flat: string, cols: nat): (r: Option<(Garden, Pos)>)
    requires cols > 0
    ensures r.Some? ==> Get(r.value.0, r.value.1.0, r.value.1.1) == Some('S')
    ensures r.Some? ==> forall row :: 0 <= row < |r.value.0| ==> |r.value.0[row]| == cols
  {
    var rows := |flat| / cols;
    if rows * cols != |flat| then None
    else match IndexOf(flat, 'S')
      case None => None
      case Some(i) =>
        CellOfIndex(flat, cols, rows, i);
        Some((Reshape(flat, cols, rows), (i / cols, i % cols)))
  }

  /** The start read from the input is the first 'S' of its bytes, which `indexed_iter`
      visits row after row. */
  lemma ReadGardenStart(input: string)
    requires ReadGarden(input).Some?
    ensures var (g, start) := ReadGarden(input).value;
      var flat, cols := Concat(Lines(input)), |Lines(input)[0]|;
      var i := start.0 * cols + start.1;
      0 <= i < |flat| && flat[i] == 'S' && 'S' !in flat[..i]
  {
    var flat, cols := Concat(Lines(input)), |Lines(input)[0]|;
    var i := IndexOf(flat, 'S').value;
    RowOfIndex(i, |flat| / cols, cols);
  }

  /** `reachable_after`: how many positions the elf can be on after `steps` steps. */
  function ReachableAfter(input: string, steps: nat): (r: Option<nat>)
    ensures r.Some? <==> ReadGarden(input).Some?
  {
    match ReadGarden(input)
    case None => None
    case Some((g, start)) => Some(|Reach(g, start, steps)|)
  }

  /** `solve`: the positions after 64 steps; with no steps there is exactly one. */
  function Solve(input: string): (r: Option<nat>)
    ensures r.Some? <==> ReadGarden(input).Some?
  {
    ReachableAfter(input, 64)
  }

  lemma ReachableAfterZero(input: string)
    requires ReadGarden(input).Some?
    ensures ReachableAfter(input, 0) == Some(1)
  {
  }
}
