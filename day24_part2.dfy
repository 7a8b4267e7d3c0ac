/** Day 24, part 2: the rock thrown from one position at one velocity that hits every
    hailstone. Each pair of hailstones gives one linear equation in four unknowns (position
    and velocity along two axes) once the product terms the pairs share cancel; the
    equations are solved exactly over the integers by repeated elimination of the first
    unknown between neighbouring rows, then back-substitution. */
module Day24Part2 {
  import opened Text

  /** One equation: the coefficients of the unknowns, then the right-hand side. */
  type Row = seq<int>

  function Abs(x: int): nat
  {
    if x < 0 then -x else x
  }

  /** `BigInt` division, which truncates toward zero (Dafny's `/` is Euclidean). */
  function Quot(a: int, b: int): (q: int)
    requires b != 0
    ensures Abs(q) == Abs(a) / Abs(b)
    ensures (a < 0) == (b < 0) ==> q >= 0
    ensures (a < 0) != (b < 0) ==> q <= 0
  {
    var n, d := Abs(a), Abs(b);
    DivNonneg(n, d);
    var m := n / d;
    if (a < 0) == (b < 0) then m else -m
  }

  /** The size of a product is the product of the sizes. */
  lemma AbsMul(b: int, x: int)
    ensures Abs(b * x) == Abs(b) * Abs(x)
    ensures x > 0 ==> ((b * x < 0) <==> (b < 0))
    ensures x < 0 ==> ((b * x < 0) <==> (b > 0))
  {
    if b < 0 && x < 0 {
      assert b * x == (-b) * (-x);
    } else if b < 0 {
      assert b * x == -((-b) * x);
    } else if x < 0 {
      assert b * x == -(b * (-x));
    }
  }

  /** An exact quotient is found whatever the signs. */
  lemma QuotExact(b: int, x: int)
    requires b != 0
    ensures Quot(b * x, b) == x
  {
    AbsMul(b, x);
    MulDivCancel(Abs(b), Abs(x));
  }

  /** `x.iter().take(unknowns).all(|x| *x != Zero::zero())`. */
  predicate NonZeroLead(row: Row, unknowns: nat)
  {
    forall i :: 0 <= i < |row| && i < unknowns ==> row[i] != 0
  }

  /** The rows the filter keeps, in order: exactly those without a zero coefficient. */
  function Keep(eqs: seq<Row>, unknowns: nat): (r: seq<Row>)
    ensures |r| <= |eqs|
    ensures forall row :: row in r <==> row in eqs && NonZeroLead(row, unknowns)
  {
    if eqs == [] then []
    else (if NonZeroLead(eqs[0], unknowns) then [eqs[0]] else []) + Keep(eqs[1..], unknowns)
  }

  /** `p * a[i] - q * b[i]` entry by entry, as far as both rows go. */
  function Mix(p: int, a: Row, q: int, b: Row): (r: Row)
    ensures |r| == if |a| < |b| then |a| else |b|
  {
    if a == [] || b == [] then [] else [p * a[0] - q * b[0]] + Mix(p, a[1..], q, b[1..])
  }

  /** The map in `tuple_windows`: the first unknown of `a` scaled by `b[0]` cancels the
      first unknown of `b` scaled by `a[0]`, and the first entry is dropped. */
  function Combine(a: Row, b: Row): (r: Row)
    requires |a| > 0 && |b| > 0
    ensures |r| == (if |a| < |b| then |a| else |b|) - 1
  {
    Mix(b[0], a[1..], a[0], b[1..])
  }

  /** Every row combined with the one after it. */
  function Windows(rows: seq<Row>): (r: seq<Row>)
    requires forall i :: 0 <= i < |rows| ==> |rows[i]| > 0
    ensures |r| == if rows == [] then 0 else |rows| - 1
    ensures forall i :: 0 <= i < |r| ==> r[i] == Combine(rows[i], rows[i + 1])
  {
    if |rows| < 2 then []
    else
      var r := [Combine(rows[0], rows[1])] + Windows(rows[1..]);
      assert forall i :: 1 <= i < |r| ==> r[i] == Combine(rows[1..][i - 1], rows[1..][i]);
      r
  }

  /** The sum of the products of `zip`, which stops at the shorter side. */
  function Dot(a: seq<int>, b: seq<int>): int
  {
    if a == [] || b == [] then 0 else a[0] * b[0] + Dot(a[1..], b[1..])
  }

  /** Every row of the system has one entry per unknown and the right-hand side; the rows
      `solve` builds have exactly this shape. */
  predicate Shaped(eqs: seq<Row>, unknowns: nat)
  {
    forall i :: 0 <= i < |eqs| ==> |eqs[i]| == unknowns + 1
  }

  /** The unknowns `s` satisfy the equation `row`. */
  predicate Satisfies(row: Row, s: seq<int>)
  {
    |row| == |s| + 1 && Dot(row[..|s|], s) == row[|s|]
  }

  /** `solve_equations`: none where the source panics because no row is left without a zero
      coefficient (an `unwrap` of an empty iterator). */
  function SolveEquations(unknowns: nat, eqs: seq<Row>): (r: Option<seq<int>>)
    requires unknowns >= 1 && Shaped(eqs, unknowns)
    ensures r.Some? ==> |r.value| == unknowns
    decreases unknowns, 1
  {
    KeepShaped(eqs, unknowns);
    Eliminate(unknowns, Keep(eqs, unknowns))
  }

  /** The rest of `solve_equations` once the rows with a zero coefficient are gone. */
  function Eliminate(unknowns: nat, rows: seq<Row>): (r: Option<seq<int>>)
    requires unknowns >= 1 && Shaped(rows, unknowns)
    requires forall i :: 0 <= i < |rows| ==> NonZeroLead(rows[i], unknowns)
    ensures r.Some? ==> |r.value| == unknowns
    decreases unknowns, 0
  {
    if rows == [] then None
    else
      assert NonZeroLead(rows[0], unknowns) && rows[0][0] != 0;
      if unknowns == 1 then Some([Quot(rows[0][1], rows[0][0])])
      else
        var first := rows[0];
        WindowsShaped(rows, unknowns);
        match SolveEquations(unknowns - 1, Windows(rows))
        case None => None
        case Some(result) => Some(Substitute(first, result))
  }

  /** Back-substitution: the first unknown from the kept row's right-hand side (its last
      entry) less its other coefficients times the unknowns already found. */
  function Substitute(first: Row, result: seq<int>): (r: seq<int>)
    requires |first| > 0 && first[0] != 0
    ensures |r| == |result| + 1 && r[1..] == result
  {
    [Quot(first[|first| - 1] - Dot(first[1..], result), first[0])] + result
  }

  /** The rows kept have the shape of the system and no zero coefficient. */
  lemma KeepShaped(eqs: seq<Row>, unknowns: nat)
    requires Shaped(eqs, unknowns)
    ensures Shaped(Keep(eqs, unknowns), unknowns)
    ensures forall i :: 0 <= i < |Keep(eqs, unknowns)| ==> NonZeroLead(Keep(eqs, unknowns)[i], unknowns)
  {
    var rows := Keep(eqs, unknowns);
    forall i | 0 <= i < |rows| ensures |rows[i]| == unknowns + 1 && NonZeroLead(rows[i], unknowns) {
      assert rows[i] in rows;
    }
  }

  /** Combining neighbours takes one unknown out of every row. */
  lemma WindowsShaped(rows: seq<Row>, unknowns: nat)
    requires unknowns >= 1 && Shaped(rows, unknowns)
    ensures Shaped(Windows(rows), unknowns - 1)
  {
  }

  /** With one unknown there is an answer exactly when some row has a non-zero
      coefficient, and it is the first such row's right-hand side over its coefficient. */
  lemma SolveOne(eqs: seq<Row>)
    requires Shaped(eqs, 1)
    ensures SolveEquations(1, eqs).Some? <==> exists i :: 0 <= i < |eqs| && eqs[i][0] != 0
    ensures SolveEquations(1, eqs).Some? ==>
      (exists i :: 0 <= i < |eqs| && eqs[i][0] != 0 && SolveEquations(1, eqs).value == [Quot(eqs[i][1], eqs[i][0])])
  {
    var rows := Keep(eqs, 1);
    if rows != [] {
      assert rows[0] in rows;
    }
    if i :| 0 <= i < |eqs| && eqs[i][0] != 0 {
      assert eqs[i] in eqs && NonZeroLead(eqs[i], 1);
      assert eqs[i] in rows;
    }
  }

  lemma DotStep(a: seq<int>, b: seq<int>)
    requires a != [] && b != []
    ensures Dot(a, b) == a[0] * b[0] + Dot(a[1..], b[1..])
  {
  }

  /** `zip` only reads as far as the shorter side. */
  lemma {:induction false} DotTruncate(a: seq<int>, b: seq<int>)
    requires |a| >= |b|
    ensures Dot(a, b) == Dot(a[..|b|], b)
  {
    if b != [] {
      DotTruncate(a[1..], b[1..]);
      assert a[..|b|][1..] == a[1..][..|b[1..]|];
    }
  }

  lemma MixStep(p: int, x: int, q: int, y: int, z: int)
    ensures (p * x - q * y) * z == p * (x * z) - q * (y * z)
  {
  }

  /** A mix of two rows applied to `s` is the same mix of their products with `s`. */
  lemma {:induction false} DotMix(p: int, a: Row, q: int, b: Row, s: seq<int>)
    requires |a| == |s| && |b| == |s|
    ensures Dot(Mix(p, a, q, b), s) == p * Dot(a, s) - q * Dot(b, s)
  {
    if s != [] {
      DotMix(p, a[1..], q, b[1..], s[1..]);
      MixStep(p, a[0], q, b[0], s[0]);
    }
  }

  lemma Cancel(a0: int, b0: int, s0: int, da: int, db: int, ra: int, rb: int)
    requires a0 * s0 + da == ra && b0 * s0 + db == rb
    ensures b0 * da - a0 * db == b0 * ra - a0 * rb
  {
    assert b0 * da == b0 * ra - b0 * (a0 * s0);
    assert a0 * db == a0 * rb - a0 * (b0 * s0);
    assert b0 * (a0 * s0) == a0 * (b0 * s0);
  }

  /** Elimination keeps solutions: unknowns that satisfy two rows satisfy their
      combination without the first unknown. */
  lemma CombineSatisfied(a: Row, b: Row, s: seq<int>)
    requires |s| >= 1 && Satisfies(a, s) && Satisfies(b, s)
    ensures Satisfies(Combine(a, b), s[1..])
  {
    var k := |s|;
    var c := Combine(a, b);
    DotStep(a[..k], s);
    DotStep(b[..k], s);
    assert a[..k][1..] == a[1..][..k - 1] && b[..k][1..] == b[1..][..k - 1];
    assert Mix(b[0], a[1..], a[0], b[1..])[..k - 1] == Mix(b[0], a[1..][..k - 1], a[0], b[1..][..k - 1]) by {
      MixPrefix(b[0], a[1..], a[0], b[1..], k - 1);
    }
    DotMix(b[0], a[1..][..k - 1], a[0], b[1..][..k - 1], s[1..]);
    Cancel(a[0], b[0], s[0], Dot(a[1..][..k - 1], s[1..]), Dot(b[1..][..k - 1], s[1..]), a[k], b[k]);
    MixLast(b[0], a[1..], a[0], b[1..], k - 1);
  }

  /** Mixing commutes with taking a prefix. */
  lemma {:induction false} MixPrefix(p: int, a: Row, q: int, b: Row, n: nat)
    requires n <= |a| && n <= |b|
    ensures Mix(p, a, q, b)[..n] == Mix(p, a[..n], q, b[..n])
  {
    if n > 0 {
      MixPrefix(p, a[1..], q, b[1..], n - 1);
      assert a[..n][1..] == a[1..][..n - 1] && b[..n][1..] == b[1..][..n - 1];
    }
  }

  /** Entry `n` of a mix mixes the entries `n`. */
  lemma {:induction false} MixLast(p: int, a: Row, q: int, b: Row, n: nat)
    requires n < |a| && n < |b|
    ensures Mix(p, a, q, b)[n] == p * a[n] - q * b[n]
  {
    if n > 0 {
      MixLast(p, a[1..], q, b[1..], n - 1);
    }
  }

  /** Every row of `eqs` is satisfied by `s`. */
  predicate AllSatisfied(eqs: seq<Row>, s: seq<int>)
  {
    forall i :: 0 <= i < |eqs| ==> Satisfies(eqs[i], s)
  }

  /** The neighbouring combinations of satisfied rows are satisfied by the rest. */
  lemma WindowsSatisfied(rows: seq<Row>, s: seq<int>)
    requires |s| >= 1 && AllSatisfied(rows, s)
    ensures AllSatisfied(Windows(rows), s[1..])
  {
    forall i | 0 <= i < |Windows(rows)| ensures Satisfies(Windows(rows)[i], s[1..]) {
      CombineSatisfied(rows[i], rows[i + 1], s);
    }
  }

  /** Back-substitution recovers the first unknown from a row it satisfies. */
  lemma BackSubstitute(first: Row, s: seq<int>)
    requires |s| >= 1 && Satisfies(first, s) && first[0] != 0
    ensures Substitute(first, s[1..]) == s
  {
    var k := |s|;
    DotStep(first[..k], s);
    assert first[..k][1..] == first[1..][..k - 1];
    DotTruncate(first[1..], s[1..]);
    QuotExact(first[0], s[0]);
    assert [s[0]] + s[1..] == s;
  }

  /** With one unknown the quotient of the kept row is the unknown that satisfies it. */
  lemma SolveLast(row: Row, s: seq<int>)
    requires |s| == 1 && Satisfies(row, s) && row[0] != 0
    ensures [Quot(row[1], row[0])] == s
  {
    DotStep(row[..1], s);
    assert row[..1][1..] == [];
    QuotExact(row[0], s[0]);
  }

  /** The rows kept are among the rows given, so they are satisfied too. */
  lemma KeepSatisfied(eqs: seq<Row>, unknowns: nat, s: seq<int>)
    requires AllSatisfied(eqs, s)
    ensures AllSatisfied(Keep(eqs, unknowns), s)
  {
    var rows := Keep(eqs, unknowns);
    forall i | 0 <= i < |rows| ensures Satisfies(rows[i], s) {
      assert rows[i] in rows;
      var j :| 0 <= j < |eqs| && eqs[j] == rows[i];
    }
  }

  /** When integer unknowns satisfy every equation, an answer of the elimination is those
      unknowns. */
  lemma {:induction false} SolveEquationsSound(unknowns: nat, eqs: seq<Row>, s: seq<int>)
    requires unknowns >= 1 && Shaped(eqs, unknowns) && |s| == unknowns && AllSatisfied(eqs, s)
    ensures SolveEquations(unknowns, eqs).Some? ==> SolveEquations(unknowns, eqs).value == s
    decreases unknowns, 1
  {
    KeepShaped(eqs, unknowns);
    KeepSatisfied(eqs, unknowns, s);
    EliminateSound(unknowns, Keep(eqs, unknowns), s);
  }

  lemma {:induction false} EliminateSound(unknowns: nat, rows: seq<Row>, s: seq<int>)
    requires unknowns >= 1 && Shaped(rows, unknowns) && |s| == unknowns && AllSatisfied(rows, s)
    requires forall i :: 0 <= i < |rows| ==> NonZeroLead(rows[i], unknowns)
    ensures Eliminate(unknowns, rows).Some? ==> Eliminate(unknowns, rows).value == s
    decreases unknowns, 0
  {
    if rows != [] {
      if unknowns == 1 {
        SolveLast(rows[0], s);
      } else {
        WindowsSatisfied(rows, s);
        SolveEquationsSound(unknowns - 1, Windows(rows), s[1..]);
        BackSubstitute(rows[0], s);
      }
    }
  }

  /** A hailstone, or the rock: its position and velocity. */
  datatype Hailstone = Hailstone(px: int, py: int, pz: int, vx: int, vy: int, vz: int)

  /** The two meet at time `t`. */
  predicate Hits(rock: Hailstone, h: Hailstone, t: int)
  {
    rock.px + t * rock.vx == h.px + t * h.vx &&
    rock.py + t * rock.vy == h.py + t * h.vy &&
    rock.pz + t * rock.vz == h.pz + t * h.vz
  }

  /** Seen along the x and y axes the rock's offset from `h` is parallel to their relative
      velocity. */
  predicate MeetsXy(rock: Hailstone, h: Hailstone)
  {
    (rock.px - h.px) * (rock.vy - h.vy) == (rock.py - h.py) * (rock.vx - h.vx)
  }

  /** The same along the x and z axes. */
  predicate MeetsXz(rock: Hailstone, h: Hailstone)
  {
    (rock.px - h.px) * (rock.vz - h.vz) == (rock.pz - h.pz) * (rock.vx - h.vx)
  }

  lemma Parallel(dx: int, dy: int, ux: int, uy: int, t: int)
    requires dx == t * ux && dy == t * uy
    ensures dx * -uy == dy * -ux
  {
    assert dx * -uy == -(t * (ux * uy));
    assert dy * -ux == -(t * (uy * ux));
  }

  /** A rock that hits a hailstone meets it along both pairs of axes. */
  lemma HitsMeet(rock: Hailstone, h: Hailstone, t: int)
    requires Hits(rock, h, t)
    ensures MeetsXy(rock, h) && MeetsXz(rock, h)
  {
    Parallel(rock.px - h.px, rock.py - h.py, h.vx - rock.vx, h.vy - rock.vy, t);
    Parallel(rock.px - h.px, rock.pz - h.pz, h.vx - rock.vx, h.vz - rock.vz, t);
  }

  /** The equation of a pair of hailstones along axes x and `y`; the unknowns are the
      rock's x position, x velocity, `y` position and `y` velocity. */
  function PairRow(px1: int, py1: int, vx1: int, vy1: int, px2: int, py2: int, vx2: int, vy2: int): Row
  {
    [vy2 - vy1, py1 - py2, vx1 - vx2, px2 - px1, px2 * vy2 - py2 * vx2 - px1 * vy1 + py1 * vx1]
  }

  lemma Dot4(row: Row, s: seq<int>)
    requires |row| == 5 && |s| == 4
    ensures Dot(row[..4], s) == row[0] * s[0] + row[1] * s[1] + row[2] * s[2] + row[3] * s[3]
  {
    var r := row[..4];
    DotStep(r, s);
    DotStep(r[1..], s[1..]);
    DotStep(r[1..][1..], s[1..][1..]);
    DotStep(r[1..][1..][1..], s[1..][1..][1..]);
    assert r[1..][1..][1..][1..] == [];
  }

  /** The product terms the two meeting conditions share cancel, and what remains is the
      pair's equation. */
  lemma PairRowSatisfied(x: int, y: int, u: int, w: int, px1: int, py1: int, vx1: int, vy1: int,
                         px2: int, py2: int, vx2: int, vy2: int)
    requires (x - px1) * (w - vy1) == (y - py1) * (u - vx1)
    requires (x - px2) * (w - vy2) == (y - py2) * (u - vx2)
    ensures Satisfies(PairRow(px1, py1, vx1, vy1, px2, py2, vx2, vy2), [x, u, y, w])
  {
    var row := PairRow(px1, py1, vx1, vy1, px2, py2, vx2, vy2);
    Dot4(row, [x, u, y, w]);
    MeetingDifference(x, y, u, w, px1, py1, vx1, vy1, px2, py2, vx2, vy2);
  }

  /** Subtracting the two meeting conditions cancels the rock's own products `x * w` and
      `y * u`, which leaves an equation linear in the rock's unknowns. */
  lemma MeetingDifference(x: int, y: int, u: int, w: int, px1: int, py1: int, vx1: int, vy1: int,
                          px2: int, py2: int, vx2: int, vy2: int)
    requires (x - px1) * (w - vy1) == (y - py1) * (u - vx1)
    requires (x - px2) * (w - vy2) == (y - py2) * (u - vx2)
    ensures (vy2 - vy1) * x + (py1 - py2) * u + (vx1 - vx2) * y + (px2 - px1) * w
            == px2 * vy2 - py2 * vx2 - px1 * vy1 + py1 * vx1
  {
    Expand(x, px1, w, vy1);
    Expand(y, py1, u, vx1);
    Expand(x, px2, w, vy2);
    Expand(y, py2, u, vx2);
    assert x * w - x * vy1 - px1 * w + px1 * vy1 == y * u - y * vx1 - py1 * u + py1 * vx1;
    assert x * w - x * vy2 - px2 * w + px2 * vy2 == y * u - y * vx2 - py2 * u + py2 * vx2;
    assert (vy2 - vy1) * x == vy2 * x - vy1 * x;
    assert (py1 - py2) * u == py1 * u - py2 * u;
    assert (vx1 - vx2) * y == vx1 * y - vx2 * y;
    assert (px2 - px1) * w == px2 * w - px1 * w;
  }

  lemma Expand(x: int, a: int, y: int, b: int)
    ensures (x - a) * (y - b) == x * y - x * b - a * y + a * b
  {
  }

  /** `tuple_combinations`: every pair of hailstones, the earlier one first, in order. */
  function Pairs(hs: seq<Hailstone>): (r: seq<(Hailstone, Hailstone)>)
    ensures forall k :: 0 <= k < |r| ==> exists i, j :: 0 <= i < j < |hs| && r[k] == (hs[i], hs[j])
  {
    if hs == [] then []
    else
      var r := seq(|hs| - 1, j requires 0 <= j < |hs| - 1 => (hs[0], hs[j + 1])) + Pairs(hs[1..]);
      assert forall k :: 0 <= k < |hs| - 1 ==> r[k] == (hs[0], hs[k + 1]);
      forall k | |hs| - 1 <= k < |r| ensures exists i, j :: 0 <= i < j < |hs| && r[k] == (hs[i], hs[j]) {
        var i, j :| 0 <= i < j < |hs[1..]| && r[k] == (hs[1..][i], hs[1..][j]);
        assert r[k] == (hs[i + 1], hs[j + 1]);
      }
      r
  }

  /** How many pairs have their first hailstone among the first `i` of `n`. */
  function Before(n: nat, i: nat): nat
    requires i <= n
  {
    if i == 0 then 0 else (n - 1) + Before(n - 1, i - 1)
  }

  /** Where the pair of the `i`-th and the `j`-th of `n` hailstones stands in `Pairs`. */
  function PairIndex(n: nat, i: nat, j: nat): nat
    requires i < j <= n
  {
    Before(n, i) + (j - i - 1)
  }

  /** Every pair `i < j` occurs in `Pairs`, at the place lexicographic order gives it, and
      there are no other elements. */
  lemma PairsComplete(hs: seq<Hailstone>)
    ensures |Pairs(hs)| == Before(|hs|, |hs|)
    ensures forall i, j :: 0 <= i < j < |hs| ==>
      PairIndex(|hs|, i, j) < |Pairs(hs)| && Pairs(hs)[PairIndex(|hs|, i, j)] == (hs[i], hs[j])
  {
    PairsLength(hs);
    forall i, j | 0 <= i < j < |hs|
      ensures PairIndex(|hs|, i, j) < |Pairs(hs)| && Pairs(hs)[PairIndex(|hs|, i, j)] == (hs[i], hs[j])
    {
      PairAt(hs, i, j);
    }
  }

  lemma {:induction false} PairsLength(hs: seq<Hailstone>)
    ensures |Pairs(hs)| == Before(|hs|, |hs|)
  {
    if hs != [] {
      PairsLength(hs[1..]);
    }
  }

  lemma {:induction false} PairAt(hs: seq<Hailstone>, i: nat, j: nat)
    requires i < j < |hs|
    ensures PairIndex(|hs|, i, j) < |Pairs(hs)| && Pairs(hs)[PairIndex(|hs|, i, j)] == (hs[i], hs[j])
  {
    var n := |hs|;
    var tail := hs[1..];
    var r := Pairs(hs);
    var head := seq(n - 1, k requires 0 <= k < n - 1 => (hs[0], hs[k + 1]));
    assert r == head + Pairs(tail);
    PairsLength(hs);
    if i == 0 {
      assert r[j - 1] == head[j - 1];
    } else {
      PairAt(tail, i - 1, j - 1);
      assert PairIndex(n, i, j) == (n - 1) + PairIndex(n - 1, i - 1, j - 1);
      assert r[PairIndex(n, i, j)] == Pairs(tail)[PairIndex(n - 1, i - 1, j - 1)];
    }
  }

  /** There are n(n-1)/2 pairs of n hailstones. */
  lemma {:induction false} PairsCount(hs: seq<Hailstone>)
    ensures 2 * |Pairs(hs)| == |hs| * (|hs| - 1)
  {
    PairsComplete(hs);
    BeforeAll(|hs|);
  }

  lemma {:induction false} BeforeAll(n: nat)
    ensures 2 * Before(n, n) == n * (n - 1)
  {
    if n > 0 {
      BeforeAll(n - 1);
      assert n * (n - 1) == 2 * (n - 1) + (n - 1) * (n - 2) by {
        Expand(n, 0, n, 1);
        Expand(n, 1, n, 2);
      }
    }
  }

  /** The rows of the system along x and y (lines 12-22) or along x and z (lines 32-42). */
  function XyRows(hs: seq<Hailstone>): (r: seq<Row>)
    ensures Shaped(r, 4)
  {
    var ps := Pairs(hs);
    seq(|ps|, k requires 0 <= k < |ps| =>
      var (h1, h2) := ps[k];
      PairRow(h1.px, h1.py, h1.vx, h1.vy, h2.px, h2.py, h2.vx, h2.vy))
  }

  function XzRows(hs: seq<Hailstone>): (r: seq<Row>)
    ensures Shaped(r, 4)
  {
    var ps := Pairs(hs);
    seq(|ps|, k requires 0 <= k < |ps| =>
      var (h1, h2) := ps[k];
      PairRow(h1.px, h1.pz, h1.vx, h1.vz, h2.px, h2.pz, h2.vx, h2.vz))
  }

  /** A rock that meets every hailstone along x and y satisfies every equation along x and
      y, as the unknowns (x position, x velocity, y position, y velocity). */
  lemma XyRowsSatisfied(hs: seq<Hailstone>, rock: Hailstone)
    requires forall i :: 0 <= i < |hs| ==> MeetsXy(rock, hs[i])
    ensures AllSatisfied(XyRows(hs), [rock.px, rock.vx, rock.py, rock.vy])
  {
    var ps := Pairs(hs);
    forall k | 0 <= k < |ps|
      ensures Satisfies(XyRows(hs)[k], [rock.px, rock.vx, rock.py, rock.vy])
    {
      var i, j :| 0 <= i < j < |hs| && ps[k] == (hs[i], hs[j]);
      assert MeetsXy(rock, hs[i]) && MeetsXy(rock, hs[j]);
      var (h1, h2) := (hs[i], hs[j]);
      PairRowSatisfied(rock.px, rock.py, rock.vx, rock.vy, h1.px, h1.py, h1.vx, h1.vy, h2.px, h2.py, h2.vx, h2.vy);
    }
  }

  lemma XzRowsSatisfied(hs: seq<Hailstone>, rock: Hailstone)
    requires forall i :: 0 <= i < |hs| ==> MeetsXz(rock, hs[i])
    ensures AllSatisfied(XzRows(hs), [rock.px, rock.vx, rock.pz, rock.vz])
  {
    var ps := Pairs(hs);
    forall k | 0 <= k < |ps|
      ensures Satisfies(XzRows(hs)[k], [rock.px, rock.vx, rock.pz, rock.vz])
    {
      var i, j :| 0 <= i < j < |hs| && ps[k] == (hs[i], hs[j]);
      assert MeetsXz(rock, hs[i]) && MeetsXz(rock, hs[j]);
      var (h1, h2) := (hs[i], hs[j]);
      PairRowSatisfied(rock.px, rock.pz, rock.vx, rock.vz, h1.px, h1.pz, h1.vx, h1.vz, h2.px, h2.pz, h2.vx, h2.vz);
    }
  }

  const I64Min: int := -0x8000_0000_0000_0000
  const I64Max: int := 0x7FFF_FFFF_FFFF_FFFF

  /** The sum of the rock's three coordinates from the two systems, none where a system
      has no answer or the sum does not fit the `i64` result (`to_i64().unwrap()`). */
  function RockSum(hs: seq<Hailstone>): (r: Option<int>)
    ensures r.Some? ==> I64Min <= r.value <= I64Max
  {
    match SolveEquations(4, XyRows(hs))
    case None => None
    case Some(xy) =>
      match SolveEquations(4, XzRows(hs))
      case None => None
      case Some(xz) =>
        var sum := xy[0] + xy[2] + xz[2];
        if I64Min <= sum <= I64Max then Some(sum) else None
  }

  /** For a rock that hits every hailstone, an answer is the sum of its starting
      coordinates. */
  lemma RockSumOfHits(hs: seq<Hailstone>, rock: Hailstone, times: seq<int>)
    requires |times| == |hs| && forall i :: 0 <= i < |hs| ==> Hits(rock, hs[i], times[i])
    ensures RockSum(hs).Some? ==> RockSum(hs).value == rock.px + rock.py + rock.pz
  {
    forall i | 0 <= i < |hs| ensures MeetsXy(rock, hs[i]) && MeetsXz(rock, hs[i]) {
      HitsMeet(rock, hs[i], times[i]);
    }
    XyRowsSatisfied(hs, rock);
    XzRowsSatisfied(hs, rock);
    SolveEquationsSound(4, XyRows(hs), [rock.px, rock.vx, rock.py, rock.vy]);
    SolveEquationsSound(4, XzRows(hs), [rock.px, rock.vx, rock.pz, rock.vz]);
  }

  /** `str::parse::<i64>`. */
  function ParseI64(s: string): (r: Option<int>)
    ensures r.Some? ==> I64Min <= r.value <= I64Max && ParseInt(s) == r
  {
    match ParseInt(s)
    case Some(v) => if I64Min <= v <= I64Max then Some(v) else None
    case None => None
  }

  /** The first three comma-separated fields, trimmed and parsed; fields after the third
      are never read. */
  function ParseTriple(s: string): (r: Option<(int, int, int)>)
    ensures r.Some? ==> |Split(s, ",")| >= 3
    ensures r.Some? ==> var f := Split(s, ",");
      ParseInt(Trim(f[0])) == Some(r.value.0) && ParseInt(Trim(f[1])) == Some(r.value.1)
      && ParseInt(Trim(f[2])) == Some(r.value.2)
  {
    var f := Split(s, ",");
    if |f| < 3 then None
    else
      var x, y, z := ParseI64(Trim(f[0])), ParseI64(Trim(f[1])), ParseI64(Trim(f[2]));
      if x.Some? && y.Some? && z.Some? then Some((x.value, y.value, z.value)) else None
  }

  /** `Hailstone::parse`: position, " @ ", velocity. */
  function ParseHailstone(line: string): (r: Option<Hailstone>)
    ensures r.Some? ==> SplitOnce(line, " @ ").Some?
  {
    match SplitOnce(line, " @ ")
    case None => None
    case Some((position, velocity)) =>
      match (ParseTriple(position), ParseTriple(velocity))
      case (Some((px, py, pz)), Some((vx, vy, vz))) => Some(Hailstone(px, py, pz, vx, vy, vz))
      case _ => None
  }

  /** Writing a hailstone back in the input's format and parsing it gives it back. */
  lemma ParseHailstoneOfText(h: Hailstone)
    requires I64Min <= h.px <= I64Max && I64Min <= h.py <= I64Max && I64Min <= h.pz <= I64Max
    requires I64Min <= h.vx <= I64Max && I64Min <= h.vy <= I64Max && I64Min <= h.vz <= I64Max
    ensures ParseHailstone(HailstoneText(h)) == Some(h)
  {
    var position := Triple(h.px, h.py, h.pz);
    var velocity := Triple(h.vx, h.vy, h.vz);
    TripleHasNoAt(h.px, h.py, h.pz);
    SplitAtSign(position, velocity);
    TripleRoundTrip(h.px, h.py, h.pz);
    TripleRoundTrip(h.vx, h.vy, h.vz);
  }

  /** An integer as `Display` writes it. */
  function IntText(v: int): (s: string)
    ensures ParseInt(s) == Some(v) && Field(s)
  {
    ParseNatOfNatToString(Abs(v));
    var t := NatToString(Abs(v));
    if v < 0 then
      assert ("-" + t)[1..] == t;
      NumberField("-" + t);
      "-" + t
    else
      NumberField(t);
      t
  }

  /** A field the parser reads back: not empty, no separator in it, and no whitespace at
      either end. */
  predicate Field(s: string)
  {
    |s| > 0 && ',' !in s && '@' !in s && !IsWhitespace(s[0]) && !IsWhitespace(s[|s| - 1])
  }

  lemma NumberField(s: string)
    requires |s| > 0 && forall i :: 0 <= i < |s| ==> IsDigit(s[i]) || s[i] == '-'
    ensures Field(s)
  {
  }

  /** Three numbers as the input writes them, separated by ", ". */
  function Triple(x: int, y: int, z: int): string
  {
    Join([IntText(x), " " + IntText(y), " " + IntText(z)], ",")
  }

  function HailstoneText(h: Hailstone): string
  {
    Triple(h.px, h.py, h.pz) + " @ " + Triple(h.vx, h.vy, h.vz)
  }

  lemma TripleHasNoAt(x: int, y: int, z: int)
    ensures '@' !in Triple(x, y, z)
  {
    var parts := [IntText(x), " " + IntText(y), " " + IntText(z)];
    assert '@' !in parts[0] && '@' !in parts[1] && '@' !in parts[2];
    NotInJoin(parts, ",", '@');
  }

  /** The first " @ " of `a + " @ " + b` is the one after `a` when `a` has no '@'. */
  lemma SplitAtSign(a: string, b: string)
    requires '@' !in a
    ensures SplitOnce(a + " @ " + b, " @ ") == Some((a, b))
  {
    var s := a + " @ " + b;
    forall j | 0 <= j < |a| ensures !OccursAt(s, " @ ", j) {
      if j + 1 < |a| {
        assert s[j + 1] == a[j + 1];
      }
      assert s[j + 1] != '@';
      assert s[j..j + 3][1] == s[j + 1];
    }
    assert s[|a|..|a| + 3] == " @ ";
    FindFromIsFirstOccurrence(s, " @ ", 0, |a|);
    assert s[|a| + 3..] == b;
  }

  lemma TripleRoundTrip(x: int, y: int, z: int)
    requires I64Min <= x <= I64Max && I64Min <= y <= I64Max && I64Min <= z <= I64Max
    ensures ParseTriple(Triple(x, y, z)) == Some((x, y, z))
  {
    var a, b, c := IntText(x), IntText(y), IntText(z);
    assert ParseI64(a) == Some(x) && ParseI64(b) == Some(y) && ParseI64(c) == Some(z);
    ParseFields(a, b, c, x, y, z);
  }

  /** Three fields joined by ", " parse back field by field. */
  lemma ParseFields(a: string, b: string, c: string, x: int, y: int, z: int)
    requires Field(a) && Field(b) && Field(c)
    requires ParseI64(a) == Some(x) && ParseI64(b) == Some(y) && ParseI64(c) == Some(z)
    ensures ParseTriple(Join([a, " " + b, " " + c], ",")) == Some((x, y, z))
  {
    var parts := [a, " " + b, " " + c];
    assert ',' !in " " + b && ',' !in " " + c;
    assert forall i :: 0 <= i < |parts| ==> ',' !in parts[i];
    SplitOfJoin(parts, ",");
    TrimOfText(a, false);
    TrimOfText(b, true);
    TrimOfText(c, true);
  }

  lemma TrimOfText(t: string, spaced: bool)
    requires Field(t)
    ensures Trim(if spaced then " " + t else t) == t
  {
    if spaced {
      assert (" " + t)[1..] == t;
    }
  }

  /** `solve`: none where a line is not a hailstone, where a system has no answer, or where
      the sum does not fit `i64`. */
  function Solve(input: string): (r: Option<int>)
    ensures r.Some? ==> ParseEach(Lines(input), ParseHailstone).Some?
  {
    match ParseEach(Lines(input), ParseHailstone)
    case None => None
    case Some(hs) => RockSum(hs)
  }

  /** The answer for an input whose every line parses, when a rock hits every hailstone,
      is the sum of the rock's starting coordinates. */
  lemma SolveOfHits(input: string, rock: Hailstone, times: seq<int>)
    requires ParseEach(Lines(input), ParseHailstone).Some?
    requires var hs := ParseEach(Lines(input), ParseHailstone).value;
      |times| == |hs| && forall i :: 0 <= i < |hs| ==> Hits(rock, hs[i], times[i])
    ensures Solve(input).Some? ==> Solve(input).value == rock.px + rock.py + rock.pz
  {
    RockSumOfHits(ParseEach(Lines(input), ParseHailstone).value, rock, times);
  }

  /** The rock of the puzzle's example, from (24, 13, 10) at velocity (-3, 1, 2), hits its
      five hailstones at times 5, 3, 4, 6 and 1, so a result for them, when the elimination
      gives one, is 47. */
  lemma ExampleRock()
    ensures var hs := [Hailstone(19, 13, 30, -2, 1, -2), Hailstone(18, 19, 22, -1, -1, -2),
                       Hailstone(20, 25, 34, -2, -2, -4), Hailstone(12, 31, 28, -1, -2, -1),
                       Hailstone(20, 19, 15, 1, -5, -3)];
      RockSum(hs).Some? ==> RockSum(hs).value == 47
  {
    var hs := [Hailstone(19, 13, 30, -2, 1, -2), Hailstone(18, 19, 22, -1, -1, -2),
               Hailstone(20, 25, 34, -2, -2, -4), Hailstone(12, 31, 28, -1, -2, -1),
               Hailstone(20, 19, 15, 1, -5, -3)];
    RockSumOfHits(hs, Hailstone(24, 13, 10, -3, 1, 2), [5, 3, 4, 6, 1]);
  }
}
