/** Day 6: boat races. Holding the button for `h` of the race's `t` milliseconds gives speed
    `h` for the remaining `t - h`; the question is how many hold times beat the record. */
module Day06 {
  import opened Text

  /** `is_winner`: holding for `h` travels farther than the record. */
  predicate IsWinner(t: nat, h: nat, record: nat)
    requires h <= t
  {
    (t - h) * h > record
  }

  /** The number of winning hold times below `n`. */
  function WinsBelow(t: nat, record: nat, n: nat): nat
    requires n <= t + 1
  {
    if n == 0 then 0 else WinsBelow(t, record, n - 1) + (if IsWinner(t, n - 1, record) then 1 else 0)
  }

  /** The number of winning hold times from 0 to `t`: the answer the puzzle asks for. */
  function WinCount(t: nat, record: nat): nat
  {
    WinsBelow(t, record, t + 1)
  }

  /** The distance grows with the hold time up to half the race. */
  lemma Monotone(t: nat, a: nat, b: nat)
    requires a <= b && a + b <= t
    ensures (t - a) * a <= (t - b) * b
  {
    assert (t - b) * b - (t - a) * a == (b - a) * (t - a - b);
  }

  /** Holding for `h` and for `t - h` travel the same distance. */
  lemma Symmetric(t: nat, h: nat, record: nat)
    requires h <= t
    ensures IsWinner(t, h, record) <==> IsWinner(t, t - h, record)
  {
    assert (t - (t - h)) * (t - h) == (t - h) * h;
  }

  /** No hold time wins when holding for half the race does not: the distance is largest
      there. */
  lemma NoWinnerAtHalf(t: nat, record: nat, h: nat)
    requires h <= t && !IsWinner(t, t / 2, record)
    ensures !IsWinner(t, h, record)
  {
    if h <= t / 2 {
      Monotone(t, h, t / 2);
    } else {
      Monotone(t, t - h, t / 2);
      Symmetric(t, h, record);
    }
  }

  lemma {:induction false} NoWinsBelow(t: nat, record: nat, n: nat)
    requires n <= t + 1 && !IsWinner(t, t / 2, record)
    ensures WinsBelow(t, record, n) == 0
  {
    if n > 0 {
      NoWinsBelow(t, record, n - 1);
      NoWinnerAtHalf(t, record, n - 1);
    }
  }

  /** Given the least winning hold time `m`, the winners are exactly `m ..= t - m`. */
  lemma WinnersAreInterval(t: nat, record: nat, m: nat, h: nat)
    requires m <= t / 2 && IsWinner(t, m, record)
    requires m == 0 || !IsWinner(t, m - 1, record)
    requires h <= t
    ensures IsWinner(t, h, record) <==> m <= h <= t - m
  {
    if h < m {
      Monotone(t, h, m - 1);
    } else if h <= t / 2 {
      Monotone(t, m, h);
    } else if h <= t - m {
      Monotone(t, m, t - h);
      Symmetric(t, h, record);
    } else {
      Monotone(t, t - h, m - 1);
      Symmetric(t, h, record);
    }
  }

  lemma {:induction false} WinsBelowInterval(t: nat, record: nat, m: nat, n: nat)
    requires m <= t / 2 && IsWinner(t, m, record)
    requires m == 0 || !IsWinner(t, m - 1, record)
    requires n <= t + 1
    ensures WinsBelow(t, record, n) == if n <= m then 0 else if n <= t - m + 1 then n - m else t + 1 - 2 * m
  {
    if n > 0 {
      WinsBelowInterval(t, record, m, n - 1);
      WinnersAreInterval(t, record, m, n - 1);
    }
  }

  /** The count from the least winning hold time `m`: `t + 1 - 2 * m`, the formula at the
      end of `count_win_scenarios`. */
  lemma WinCountFromLeast(t: nat, record: nat, m: nat)
    requires m <= t / 2 && IsWinner(t, m, record)
    requires m == 0 || !IsWinner(t, m - 1, record)
    ensures WinCount(t, record) == t + 1 - 2 * m
  {
    WinsBelowInterval(t, record, m, t + 1);
  }

  /** `count_win_scenarios` as written: a binary search for the least winning hold time in
      `0 ..= t / 2`, assuming that `t / 2` wins. When it does, the count is right; when no
      hold time wins, the search stays at `t / 2` and the answer is 1 or 2 instead of 0. */
  method CountWinScenarios(t: nat, record: nat) returns (count: nat)
    ensures IsWinner(t, t / 2, record) ==> count == WinCount(t, record)
    ensures !IsWinner(t, t / 2, record) ==> count == t + 1 - 2 * (t / 2)
  {
    var low: nat := 0;
    var high: nat := t / 2;
    while low + 1 < high
      invariant low <= high <= t / 2
      invariant !IsWinner(t, low, record)
      invariant IsWinner(t, t / 2, record) ==> IsWinner(t, high, record)
      invariant !IsWinner(t, t / 2, record) ==> high == t / 2
      decreases high - low
    {
      var mid := low + (high - low) / 2;
      if IsWinner(t, mid, record) {
        Monotone(t, mid, t / 2);
        high := mid;
      } else {
        low := mid;
      }
    }
    if IsWinner(t, t / 2, record) {
      WinCountFromLeast(t, record, high);
    }
    count := t + 1 - high * 2;
  }

  /** A record no hold time beats: `t = 2`, record 1. Holding for 1 ties the record, so no
      hold time wins, while `CountWinScenarios` answers 1. */
  lemma UnbeatableRecordCountsOne()
    ensures !IsWinner(2, 2 / 2, 1)
    ensures WinCount(2, 1) == 0
    ensures 2 + 1 - 2 * (2 / 2) == 1
  {
    NoWinsBelow(2, 1, 3);
  }

  /** The count of winning hold times, 0 when even holding for half the race loses. */
  method CountWins(t: nat, record: nat) returns (count: nat)
    ensures count == WinCount(t, record)
  {
    if IsWinner(t, t / 2, record) {
      count := CountWinScenarios(t, record);
    } else {
      NoWinsBelow(t, record, t + 1);
      count := 0;
    }
  }

  /** The tokens of `tokens` that parse as numbers, in order (`filter_map(parse.ok)`). */
  function ParsedNumbers(tokens: seq<string>): (r: seq<nat>)
    ensures |r| <= |tokens|
  {
    if tokens == [] then []
    else (match ParseNat(tokens[0]) case Some(v) => [v] case None => []) + ParsedNumbers(tokens[1..])
  }

  /** `get_data_line`: the numbers after the first ':'; none when there is no ':'. */
  function DataLine(line: string): (r: Option<seq<nat>>)
    ensures r.None? <==> ':' !in line
  {
    match SplitOnce(line, ":")
    case None =>
      forall k | 0 <= k < |line| ensures line[k] != ':' {
        assert !OccursAt(line, ":", k);
        assert line[k..k + 1] == [line[k]];
      }
      None
    case Some((_, data)) => Some(ParsedNumbers(SplitWhitespace(data)))
  }

  /** `get_value_line`: the digit groups after the first ':' read as one number, the
      whitespace between them ignored. */
  function ValueLine(line: string): (r: Option<nat>)
    ensures ':' !in line ==> r.None?
  {
    match SplitOnce(line, ":")
    case None => None
    case Some((_, data)) => ParseNat(Concat(SplitWhitespace(data)))
  }

  /** Whitespace anywhere in the data does not change the value: it is the data with all
      whitespace removed, read as a number. */
  lemma ValueLineIgnoresSpaces(head: string, data: string)
    requires ':' !in head
    ensures ValueLine(head + ":" + data) == ParseNat(RemoveSpaces(data))
  {
    SplitOnceOfJoined(head, ":", data);
  }

  /** The races of part 1: times paired with distances, as far as both lists go (`zip`). */
  function Zip(a: seq<nat>, b: seq<nat>): (r: seq<(nat, nat)>)
    ensures |r| == if |a| < |b| then |a| else |b|
    ensures forall i :: 0 <= i < |r| ==> r[i] == (a[i], b[i])
  {
    if a == [] || b == [] then [] else [(a[0], b[0])] + Zip(a[1..], b[1..])
  }

  /** The races of the input; none when it has fewer than two lines or a line has no ':'. */
  function Races(input: string): Option<seq<(nat, nat)>>
  {
    var lines := Lines(input);
    if |lines| < 2 then None
    else match (DataLine(lines[0]), DataLine(lines[1]))
      case (Some(times), Some(distances)) => Some(Zip(times, distances))
      case _ => None
  }

  /** The product of the winning counts of all races. */
  function ProductOfWins(races: seq<(nat, nat)>): nat
  {
    if races == [] then 1 else WinCount(races[0].0, races[0].1) * ProductOfWins(races[1..])
  }

  /** A race nobody can win makes the whole product 0. */
  lemma {:induction false} UnwinnableRaceZeroes(races: seq<(nat, nat)>, i: nat)
    requires i < |races| && WinCount(races[i].0, races[i].1) == 0
    ensures ProductOfWins(races) == 0
  {
    if i > 0 { UnwinnableRaceZeroes(races[1..], i - 1); }
  }

  /** The product loop of `solve_part1`, over the races from the back. */
  method ProductLoop(races: seq<(nat, nat)>) returns (product: nat)
    ensures product == ProductOfWins(races)
  {
    product := 1;
    var i := |races|;
    while i > 0
      invariant 0 <= i <= |races|
      invariant product == ProductOfWins(races[i..])
    {
      i := i - 1;
      var count := CountWins(races[i].0, races[i].1);
      assert races[i..][1..] == races[i + 1..];
      product := count * product;
    }
  }

  /** `solve_part1`: the product of the winning counts over the races. */
  method SolvePart1(input: string) returns (r: Option<nat>)
    ensures Races(input).None? ==> r.None?
    ensures Races(input).Some? ==> r == Some(ProductOfWins(Races(input).value))
  {
    var races := Races(input);
    if races.None? {
      r := None;
    } else {
      var product := ProductLoop(races.value);
      r := Some(product);
    }
  }

  /** `solve_part2`: the two lines read as a single race. */
  method SolvePart2(input: string) returns (r: Option<nat>)
    ensures |Lines(input)| < 2 ==> r.None?
    ensures |Lines(input)| >= 2 ==> match (ValueLine(Lines(input)[0]), ValueLine(Lines(input)[1]))
      case (Some(t), Some(d)) => r == Some(WinCount(t, d))
      case _ => r.None?
  {
    var lines := Lines(input);
    if |lines| < 2 {
      r := None;
    } else {
      match (ValueLine(lines[0]), ValueLine(lines[1]))
      case (Some(t), Some(d)) =>
        var count := CountWins(t, d);
        r := Some(count);
      case _ => r := None;
    }
  }
}
