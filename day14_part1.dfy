/** Day 14, part 1: the load on the north support beams once every round rock has rolled
    north. Read from the top, a column falls into segments separated by cube rocks, and
    each segment's round rocks end up packed at its top. */
module Day14Part1 {
  import opened Text

  /** A cell of the platform: 'O' is a round rock, '#' a cube rock, anything else empty. */
  datatype Cell = Round | Cube | Empty

  function CellOf(c: char): Cell
  {
    if c == 'O' then Round else if c == '#' then Cube else Empty
  }

  /** The number of round rocks. */
  function Count(x: seq<Cell>): (k: nat)
    ensures k <= |x|
  {
    if x == [] then 0 else Count(x[..|x| - 1]) + (if x[|x| - 1] == Round then 1 else 0)
  }

  function Rounds(k: nat): (r: seq<Cell>)
    ensures |r| == k && forall i :: 0 <= i < k ==> r[i] == Round
  {
    seq(k, _ => Round)
  }

  function Empties(k: nat): (r: seq<Cell>)
    ensures |r| == k && forall i :: 0 <= i < k ==> r[i] == Empty
  {
    seq(k, _ => Empty)
  }

  /** The cells `x` still to roll, after `r` round rocks and `e` empty cells of the current
      segment: each segment, closed by a cube rock or the end, holds its round rocks first. */
  function SettleRun(x: seq<Cell>, r: nat, e: nat): (s: seq<Cell>)
    ensures |s| == r + e + |x|
  {
    if x == [] then Rounds(r) + Empties(e)
    else if x[0] == Cube then Rounds(r) + Empties(e) + [Cube] + SettleRun(x[1..], 0, 0)
    else if x[0] == Round then SettleRun(x[1..], r + 1, e)
    else SettleRun(x[1..], r, e + 1)
  }

  /** The cells after every round rock has rolled toward the front. */
  function Settle(x: seq<Cell>): (s: seq<Cell>)
    ensures |s| == |x|
  {
    SettleRun(x, 0, 0)
  }

  lemma ConcatAssoc<T>(a: seq<T>, b: seq<T>, c: seq<T>)
    ensures a + (b + c) == (a + b) + c
  {
  }

  lemma {:induction false} CountAppend(a: seq<Cell>, b: seq<Cell>)
    ensures Count(a + b) == Count(a) + Count(b)
    decreases |b|
  {
    if b == [] {
      assert a + b == a;
    } else {
      assert (a + b)[..|a + b| - 1] == a + b[..|b| - 1];
      CountAppend(a, b[..|b| - 1]);
    }
  }

  lemma {:induction false} CountUniform(k: nat)
    ensures Count(Rounds(k)) == k && Count(Empties(k)) == 0
  {
    if k > 0 {
      assert Rounds(k)[..k - 1] == Rounds(k - 1);
      assert Empties(k)[..k - 1] == Empties(k - 1);
      CountUniform(k - 1);
    }
  }

  lemma CountFront(c: Cell, y: seq<Cell>)
    ensures Count([c] + y) == (if c == Round then 1 else 0) + Count(y)
  {
    CountAppend([c], y);
    assert [c][..0] == [];
  }

  /** Rolling keeps the number of round rocks. */
  lemma {:induction false} SettleRunCount(x: seq<Cell>, r: nat, e: nat)
    ensures Count(SettleRun(x, r, e)) == r + Count(x)
    decreases |x|
  {
    CountAppend(Rounds(r), Empties(e));
    CountUniform(r);
    CountUniform(e);
    if x != [] {
      assert x == [x[0]] + x[1..];
      CountFront(x[0], x[1..]);
      if x[0] == Cube {
        var a, t := Rounds(r) + Empties(e), SettleRun(x[1..], 0, 0);
        SettleRunCount(x[1..], 0, 0);
        CountAppend(a + [Cube], t);
        CountAppend(a, [Cube]);
        CountFront(Cube, []);
        assert [Cube] + [] == [Cube];
      } else if x[0] == Round {
        SettleRunCount(x[1..], r + 1, e);
      } else {
        SettleRunCount(x[1..], r, e + 1);
      }
    }
  }

  /** Rolling leaves the cube rocks where they were and every other cell free of them. */
  lemma {:induction false} SettleRunCubes(x: seq<Cell>, r: nat, e: nat)
    ensures forall p :: 0 <= p < r + e ==> SettleRun(x, r, e)[p] != Cube
    ensures forall p :: 0 <= p < |x| ==> (SettleRun(x, r, e)[r + e + p] == Cube <==> x[p] == Cube)
    decreases |x|
  {
    if x != [] {
      var rest := x[1..];
      if x[0] == Cube {
        SettleRunCubes(rest, 0, 0);
        var s := SettleRun(x, r, e);
        forall p | 0 <= p < |x| ensures s[r + e + p] == Cube <==> x[p] == Cube {
          if p > 0 {
            assert s[r + e + p] == SettleRun(rest, 0, 0)[p - 1] && x[p] == rest[p - 1];
          }
        }
      } else if x[0] == Round {
        SettleRunCubes(rest, r + 1, e);
        forall p | 0 <= p < |x| ensures SettleRun(x, r, e)[r + e + p] == Cube <==> x[p] == Cube {
          if p > 0 {
            assert r + e + p == (r + 1) + e + (p - 1) && x[p] == rest[p - 1];
          }
        }
      } else {
        SettleRunCubes(rest, r, e + 1);
        forall p | 0 <= p < |x| ensures SettleRun(x, r, e)[r + e + p] == Cube <==> x[p] == Cube {
          if p > 0 {
            assert r + e + p == r + (e + 1) + (p - 1) && x[p] == rest[p - 1];
          }
        }
      }
    }
  }

  /** Rolling keeps the number of round rocks and leaves every cube rock where it was. */
  lemma SettleKeepsRocks(x: seq<Cell>)
    ensures Count(Settle(x)) == Count(x)
    ensures forall p :: 0 <= p < |x| ==> (Settle(x)[p] == Cube <==> x[p] == Cube)
  {
    SettleRunCount(x, 0, 0);
    SettleRunCubes(x, 0, 0);
  }

  /** The round rocks of a closed segment come first. */
  predicate PackedAt(s: seq<Cell>, p: nat)
    requires 0 < p < |s|
  {
    s[p] == Round ==> s[p - 1] != Empty
  }

  lemma PackedUniform(r: nat, e: nat)
    ensures forall p :: 0 < p < r + e ==> PackedAt(Rounds(r) + Empties(e), p)
  {
  }

  /** After rolling, every round rock lies at the front, or just after a rock. */
  lemma {:induction false} SettleRunPacked(x: seq<Cell>, r: nat, e: nat)
    ensures forall p :: 0 < p < r + e + |x| ==> PackedAt(SettleRun(x, r, e), p)
    ensures e > 0 ==> SettleRun(x, r, e)[0] != Cube
    ensures r > 0 ==> SettleRun(x, r, e)[0] == Round
    decreases |x|
  {
    if x == [] {
      PackedUniform(r, e);
    } else if x[0] == Cube {
      var a, t := Rounds(r) + Empties(e), SettleRun(x[1..], 0, 0);
      SettleRunPacked(x[1..], 0, 0);
      PackedUniform(r, e);
      var s := a + [Cube] + t;
      forall p | 0 < p < |s| ensures PackedAt(s, p) {
        if p > r + e + 1 {
          assert PackedAt(t, p - r - e - 1);
        } else if p == r + e + 1 && s[p] == Round {
          assert t[0] == Round;
        }
      }
    } else if x[0] == Round {
      SettleRunPacked(x[1..], r + 1, e);
    } else {
      SettleRunPacked(x[1..], r, e + 1);
    }
  }

  lemma SettlePacked(x: seq<Cell>)
    ensures forall p :: 0 < p < |x| ==> PackedAt(Settle(x), p)
  {
    SettleRunPacked(x, 0, 0);
  }

  /** Rolling a column that starts with packed round and empty cells gathers them into the
      first segment's counts. */
  lemma {:induction false} SettleRunOfUniform(a: nat, b: nat, y: seq<Cell>, r: nat, e: nat)
    ensures SettleRun(Rounds(a) + Empties(b) + y, r, e) == SettleRun(y, r + a, e + b)
    decreases a + b
  {
    var z := Rounds(a) + Empties(b) + y;
    if a > 0 {
      assert z[0] == Round && z[1..] == Rounds(a - 1) + Empties(b) + y;
      SettleRunOfUniform(a - 1, b, y, r + 1, e);
    } else if b > 0 {
      assert z[0] == Empty && z[1..] == Rounds(0) + Empties(b - 1) + y;
      SettleRunOfUniform(0, b - 1, y, r, e + 1);
    } else {
      assert z == y;
    }
  }

  lemma {:induction false} SettleRunIdempotent(x: seq<Cell>, r: nat, e: nat)
    ensures Settle(SettleRun(x, r, e)) == SettleRun(x, r, e)
    decreases |x|
  {
    if x == [] {
      SettleRunOfUniform(r, e, [], 0, 0);
      assert Rounds(r) + Empties(e) + [] == Rounds(r) + Empties(e);
    } else if x[0] == Cube {
      var t := SettleRun(x[1..], 0, 0);
      SettleRunOfUniform(r, e, [Cube] + t, 0, 0);
      ConcatAssoc(Rounds(r) + Empties(e), [Cube], t);
      assert ([Cube] + t)[0] == Cube && ([Cube] + t)[1..] == t;
      SettleRunIdempotent(x[1..], 0, 0);
    } else if x[0] == Round {
      SettleRunIdempotent(x[1..], r + 1, e);
    } else {
      SettleRunIdempotent(x[1..], r, e + 1);
    }
  }

  /** Rolling an already rolled column changes nothing. */
  lemma SettleIdempotent(x: seq<Cell>)
    ensures Settle(Settle(x)) == Settle(x)
  {
    SettleRunIdempotent(x, 0, 0);
  }

  /** Part way down `x`, at row `m`: the rolled column is what is done followed by the roll
      of the rest from the current segment's `r` round rocks and `e` empty cells. */
  predicate Scanned(x: seq<Cell>, m: nat, done: seq<Cell>, r: nat, e: nat)
  {
    m <= |x| && Settle(x) == done + SettleRun(x[m..], r, e)
  }

  lemma ScanStart(x: seq<Cell>)
    ensures Scanned(x, 0, [], 0, 0)
  {
    assert x[0..] == x;
  }

  lemma ScanRound(x: seq<Cell>, m: nat, done: seq<Cell>, r: nat, e: nat)
    requires Scanned(x, m, done, r, e) && m < |x| && x[m] == Round
    ensures Scanned(x, m + 1, done, r + 1, e)
  {
    assert x[m..][0] == x[m] && x[m..][1..] == x[m + 1..];
  }

  lemma ScanEmpty(x: seq<Cell>, m: nat, done: seq<Cell>, r: nat, e: nat)
    requires Scanned(x, m, done, r, e) && m < |x| && x[m] == Empty
    ensures Scanned(x, m + 1, done, r, e + 1)
  {
    assert x[m..][0] == x[m] && x[m..][1..] == x[m + 1..];
  }

  lemma ScanCube(x: seq<Cell>, m: nat, done: seq<Cell>, r: nat, e: nat)
    requires Scanned(x, m, done, r, e) && m < |x| && x[m] == Cube
    ensures Scanned(x, m + 1, done + Rounds(r) + Empties(e) + [Cube], 0, 0)
  {
    assert x[m..][0] == x[m] && x[m..][1..] == x[m + 1..];
    ConcatAssoc(done, Rounds(r) + Empties(e) + [Cube], SettleRun(x[m + 1..], 0, 0));
  }

  lemma ScanEnd(x: seq<Cell>, done: seq<Cell>, r: nat, e: nat)
    requires Scanned(x, |x|, done, r, e)
    ensures Settle(x) == done + Rounds(r) + Empties(e)
  {
    assert x[|x|..] == [];
  }

  /** The load of the round rocks in a column, each weighing `h` less its row. */
  function RoundLoad(x: seq<Cell>, h: nat): nat
    requires |x| <= h
  {
    if x == [] then 0
    else RoundLoad(x[..|x| - 1], h) + (if x[|x| - 1] == Round then h - (|x| - 1) else 0)
  }

  lemma RoundLoadSnoc(x: seq<Cell>, c: Cell, h: nat)
    requires |x| < h
    ensures RoundLoad(x + [c], h) == RoundLoad(x, h) + (if c == Round then h - |x| else 0)
  {
    assert (x + [c])[..|x|] == x;
  }

  lemma {:induction false} RoundLoadEmpties(x: seq<Cell>, e: nat, h: nat)
    requires |x| + e <= h
    ensures RoundLoad(x + Empties(e), h) == RoundLoad(x, h)
  {
    if e == 0 {
      assert x + Empties(0) == x;
    } else {
      assert x + Empties(e) == x + Empties(e - 1) + [Empty];
      RoundLoadSnoc(x + Empties(e - 1), Empty, h);
      RoundLoadEmpties(x, e - 1, h);
    }
  }

  lemma LoadOfRound(done: seq<Cell>, cnt: nat, h: nat)
    requires |done| + cnt < h
    ensures RoundLoad(done + Rounds(cnt + 1), h) == RoundLoad(done + Rounds(cnt), h) + (h - |done| - cnt)
  {
    assert done + Rounds(cnt + 1) == done + Rounds(cnt) + [Round];
    RoundLoadSnoc(done + Rounds(cnt), Round, h);
  }

  lemma LoadOfCube(done: seq<Cell>, cnt: nat, e: nat, h: nat)
    requires |done| + cnt + e < h
    ensures RoundLoad(done + Rounds(cnt) + Empties(e) + [Cube] + Rounds(0), h) == RoundLoad(done + Rounds(cnt), h)
  {
    var closed := done + Rounds(cnt) + Empties(e) + [Cube];
    assert closed + Rounds(0) == closed;
    RoundLoadSnoc(done + Rounds(cnt) + Empties(e), Cube, h);
    RoundLoadEmpties(done + Rounds(cnt), e, h);
  }

  predicate Wide(lines: seq<string>, width: nat)
  {
    forall r :: 0 <= r < |lines| ==> width <= |lines[r]|
  }

  /** Column `n`, read from the top. */
  function Column(lines: seq<string>, n: nat): (col: seq<Cell>)
    requires Wide(lines, n + 1)
    ensures |col| == |lines|
  {
    seq(|lines|, m requires 0 <= m < |lines| => CellOf(lines[m][n]))
  }

  /** The body of `solve`'s column scan: walking down, a round rock adds the current cost,
      which then drops by one, and a cube rock at row `m` resets the cost to the height
      below it. The total is the load of the column once it has rolled north. */
  method ColumnLoad(lines: seq<string>, n: nat) returns (total: nat)
    requires Wide(lines, n + 1)
    ensures total == RoundLoad(Settle(Column(lines, n)), |lines|)
  {
    ghost var col := Column(lines, n);
    ghost var done: seq<Cell> := [];
    ghost var cnt, e := 0, 0;
    ScanStart(col);
    total := 0;
    var cost := |lines|;
    var m := 0;
    while m < |lines|
      invariant m <= |lines| && |done| + cnt + e == m
      invariant Scanned(col, m, done, cnt, e)
      invariant cost == |lines| - |done| - cnt
      invariant total == RoundLoad(done + Rounds(cnt), |lines|)
    {
      var c := lines[m][n];
      assert col[m] == CellOf(c);
      if c == 'O' {
        ScanRound(col, m, done, cnt, e);
        LoadOfRound(done, cnt, |lines|);
        total := total + cost;
        cost := cost - 1;
        cnt := cnt + 1;
      } else if c == '#' {
        ScanCube(col, m, done, cnt, e);
        LoadOfCube(done, cnt, e, |lines|);
        cost := |lines| - m - 1;
        done, cnt, e := done + Rounds(cnt) + Empties(e) + [Cube], 0, 0;
      } else {
        ScanEmpty(col, m, done, cnt, e);
        e := e + 1;
      }
      m := m + 1;
    }
    ScanEnd(col, done, cnt, e);
    RoundLoadEmpties(done + Rounds(cnt), e, |lines|);
  }

  /** The load of the first `k` columns after the roll. */
  function TiltedLoad(lines: seq<string>, k: nat): nat
    requires Wide(lines, k)
  {
    if k == 0 then 0 else TiltedLoad(lines, k - 1) + RoundLoad(Settle(Column(lines, k - 1)), |lines|)
  }

  /** `solve`: the sum of the column loads. The source indexes the first line, so a platform
      without lines has no answer, nor has one with a line shorter than the first. */
  method Solve(input: string) returns (r: Option<nat>)
    ensures r.None? <==> Lines(input) == [] || !Wide(Lines(input), |Lines(input)[0]|)
    ensures r.Some? ==> r.value == TiltedLoad(Lines(input), |Lines(input)[0]|)
  {
    var lines := Lines(input);
    if lines == [] {
      return None;
    }
    var width := |lines[0]|;
    if !(forall m :: 0 <= m < |lines| ==> width <= |lines[m]|) {
      return None;
    }
    var sum := 0;
    var n := 0;
    while n < width
      invariant n <= width && sum == TiltedLoad(lines, n)
    {
      var total := ColumnLoad(lines, n);
      sum := sum + total;
      n := n + 1;
    }
    return Some(sum);
  }
}
