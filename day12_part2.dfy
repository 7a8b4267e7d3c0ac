/** Day 12, part 2: the same count on records unfolded five times. Here a state is a position
    from which the next group is searched for, and the table again holds a count per
    position `0..|pattern|`. */
module Day12Part2 {
  import opened Text
  import opened Day12Part1

  /** A pattern of operational, damaged and unknown springs only. */
  predicate WellFormed(p: string)
  {
    forall i :: 0 <= i < |p| ==> p[i] == '.' || p[i] == '#' || p[i] == '?'
  }

  /** The five copies of the pattern joined by '?'. */
  function Unfold(p: string): (r: string)
    ensures |r| == 5 * |p| + 4
    ensures WellFormed(p) ==> WellFormed(r)
  {
    p + "?" + p + "?" + p + "?" + p + "?" + p
  }

  /** The five copies of the size list joined by ','. */
  function UnfoldSizes(g: string): string
  {
    g + "," + g + "," + g + "," + g + "," + g
  }

  function Repeat5(s: seq<nat>): seq<nat>
  {
    s + s + s + s + s
  }

  /** `matches!(pattern.chars().nth(j), Some('#') | Some('?'))`. */
  predicate Damageable(p: string, j: nat)
  {
    j < |p| && (p[j] == '#' || p[j] == '?')
  }

  /** `find_after_pos`: with the group's first cell at `s`, where the search for the next
      group resumes, if cells `s + 1 .. s + k` can be damaged and the cell after them can be
      operational or is past the end. */
  function FindAfterPos(p: string, s: nat, k: nat): (r: Option<nat>)
  {
    if forall j :: s + 1 <= j < s + k ==> Damageable(p, j) then
      if s + k < |p| && (p[s + k] == '?' || p[s + k] == '.') then Some(s + k + 1)
      else if s + k >= |p| then Some(s + k)
      else None
    else None
  }

  /** On a well-formed pattern, resuming after a group is placing a valid group. */
  lemma FindAfterPosIsValidGroup(p: string, s: nat, k: nat)
    requires WellFormed(p) && s < |p| && (p[s] == '#' || p[s] == '?') && k >= 1
    ensures FindAfterPos(p, s, k) == if IsValidGroup(p, s, k) then Some(Min(s + k + 1, |p|)) else None
  {
    if s + k > |p| {
      assert !Damageable(p, s + k - 1);
    } else if IsValidGroup(p, s, k) {
      assert forall j :: s + 1 <= j < s + k ==> Damageable(p, j);
    } else if forall j :: s + 1 <= j < s + k ==> Damageable(p, j) {
      forall j | s <= j < s + k ensures p[j] == '#' || p[j] == '?' {
        if j > s { assert Damageable(p, j); }
      }
      assert s + k < |p| && p[s + k] == '#';
    }
  }

  /** The positions the generator of `find_damaged_groups` yields from `pos`: one for every
      '?' where a group fits, and for the first '#', where it stops. */
  function DamagedFrom(p: string, k: nat, pos: nat): (r: seq<nat>)
    decreases |p| - pos
  {
    if pos >= |p| then []
    else if p[pos] == '#' then
      match FindAfterPos(p, pos, k)
      case Some(after) => [after]
      case None => []
    else if p[pos] == '?' then
      match FindAfterPos(p, pos, k)
      case Some(after) => [after] + DamagedFrom(p, k, pos + 1)
      case None => DamagedFrom(p, k, pos + 1)
    else DamagedFrom(p, k, pos + 1)
  }

  /** Resuming never goes past the end of the pattern. */
  lemma FindAfterPosBound(p: string, s: nat, k: nat)
    requires s < |p|
    ensures FindAfterPos(p, s, k).Some? ==> FindAfterPos(p, s, k).value <= |p|
  {
    if s + k > |p| && k >= 2 {
      assert !Damageable(p, s + k - 1);
    }
  }

  lemma {:induction false} DamagedFromBound(p: string, k: nat, pos: nat)
    ensures forall i :: 0 <= i < |DamagedFrom(p, k, pos)| ==> DamagedFrom(p, k, pos)[i] <= |p|
    decreases |p| - pos
  {
    if pos < |p| {
      DamagedFromBound(p, k, pos + 1);
      FindAfterPosBound(p, pos, k);
    }
  }

  /** `find_damaged_groups`: the loop of the generator, moving `pos` on. */
  method FindDamagedGroups(p: string, k: nat, start: nat) returns (afters: seq<nat>)
    ensures afters == DamagedFrom(p, k, start)
  {
    var pos := start;
    afters := [];
    while pos < |p|
      invariant afters + DamagedFrom(p, k, pos) == DamagedFrom(p, k, start)
      decreases |p| - pos
    {
      var c := p[pos];
      if c == '#' {
        var after := FindAfterPos(p, pos, k);
        if after.Some? {
          afters := afters + [after.value];
        }
        assert afters == DamagedFrom(p, k, start);
        return;
      } else if c == '?' {
        var after := FindAfterPos(p, pos, k);
        if after.Some? {
          assert DamagedFrom(p, k, pos) == [after.value] + DamagedFrom(p, k, pos + 1);
          afters := afters + [after.value];
        }
      }
      pos := pos + 1;
    }
  }

  /** The fold over the states `0..n` for one group size, merging equal positions. */
  function StepUpTo(p: string, k: nat, v: seq<nat>, n: nat): (r: seq<nat>)
    requires |v| == |p| + 1 && n <= |v|
    ensures |r| == |v|
  {
    if n == 0 then seq(|v|, _ => 0)
    else
      DamagedFromBound(p, k, n - 1);
      AddOffsets(StepUpTo(p, k, v, n - 1), 0, DamagedFrom(p, k, n - 1), v[n - 1])
  }

  /** The fold over the group sizes, from the single state at position 0. */
  function Run(p: string, v: seq<nat>, sizes: seq<nat>): (r: seq<nat>)
    requires |v| == |p| + 1
    ensures |r| == |v|
    decreases |sizes|
  {
    if sizes == [] then v else Run(p, StepUpTo(p, sizes[0], v, |v|), sizes[1..])
  }

  /** The ways of the states with no '#' left after them. */
  function Finished(p: string, v: seq<nat>, n: nat): nat
    requires n <= |v| <= |p| + 1
  {
    if n == 0 then 0 else Finished(p, v, n - 1) + (if '#' in p[n - 1..] then 0 else v[n - 1])
  }

  function Arrangements(p: string, sizes: seq<nat>): nat
  {
    var v := seq(|p| + 1, t => if t == 0 then 1 else 0);
    Finished(p, Run(p, v, sizes), |v|)
  }

  // The weight of a table: every state's ways times the arrangements from it.

  function Weight(p: string, v: seq<nat>, sizes: seq<nat>, n: nat): nat
    requires n <= |v| <= |p| + 1
  {
    if n == 0 then 0 else Weight(p, v, sizes, n - 1) + v[n - 1] * Count(p, n - 1, sizes)
  }

  function CountOver(p: string, afters: seq<nat>, sizes: seq<nat>): nat
    requires forall i :: 0 <= i < |afters| ==> afters[i] <= |p|
  {
    if afters == [] then 0 else Count(p, afters[0], sizes) + CountOver(p, afters[1..], sizes)
  }

  lemma {:induction false} WeightOfZeros(p: string, v: seq<nat>, sizes: seq<nat>, n: nat)
    requires n <= |v| <= |p| + 1
    requires forall t :: 0 <= t < |v| ==> v[t] == 0
    ensures Weight(p, v, sizes, n) == 0
  {
    if n > 0 { WeightOfZeros(p, v, sizes, n - 1); }
  }

  lemma {:induction false} WeightOfAdd(p: string, v: seq<nat>, t: nat, c: nat, sizes: seq<nat>, n: nat)
    requires t < |v| <= |p| + 1 && n <= |v|
    ensures Weight(p, v[t := v[t] + c], sizes, n)
      == Weight(p, v, sizes, n) + (if t < n then c * Count(p, t, sizes) else 0)
  {
    if n > 0 {
      WeightOfAdd(p, v, t, c, sizes, n - 1);
      if n - 1 == t {
        var f := Count(p, t, sizes);
        MulDistributes(f, v[t], c);
      }
    }
  }

  lemma {:induction false} WeightOfAddAll(p: string, v: seq<nat>, afters: seq<nat>, c: nat, sizes: seq<nat>)
    requires |v| == |p| + 1
    requires forall i :: 0 <= i < |afters| ==> afters[i] < |v|
    ensures Weight(p, AddOffsets(v, 0, afters, c), sizes, |v|)
      == Weight(p, v, sizes, |v|) + c * CountOver(p, afters, sizes)
    decreases |afters|
  {
    if afters != [] {
      var t := afters[0];
      WeightOfAdd(p, v, t, c, sizes, |v|);
      WeightOfAddAll(p, v[t := v[t] + c], afters[1..], c, sizes);
      var f, g := Count(p, t, sizes), CountOver(p, afters[1..], sizes);
      MulDistributes(c, f, g);
    }
  }

  /** Searching from `pos` finds exactly the arrangements of the groups from `pos`. */
  lemma {:induction false} CountOverDamaged(p: string, k: nat, pos: nat, sizes: seq<nat>)
    requires WellFormed(p) && k >= 1 && pos <= |p|
    ensures forall i :: 0 <= i < |DamagedFrom(p, k, pos)| ==> DamagedFrom(p, k, pos)[i] <= |p|
    ensures CountOver(p, DamagedFrom(p, k, pos), sizes) == Count(p, pos, [k] + sizes)
    decreases |p| - pos
  {
    DamagedFromBound(p, k, pos);
    assert ([k] + sizes)[1..] == sizes;
    if pos < |p| {
      if p[pos] != '#' {
        CountOverDamaged(p, k, pos + 1, sizes);
      }
      if p[pos] != '.' {
        FindAfterPosIsValidGroup(p, pos, k);
      }
    }
  }

  lemma {:induction false} WeightOfStep(p: string, k: nat, v: seq<nat>, sizes: seq<nat>, n: nat)
    requires WellFormed(p) && k >= 1
    requires |v| == |p| + 1 && n <= |v|
    ensures Weight(p, StepUpTo(p, k, v, n), sizes, |v|) == Weight(p, v, [k] + sizes, n)
  {
    if n == 0 {
      WeightOfZeros(p, StepUpTo(p, k, v, 0), sizes, |v|);
    } else {
      var s := n - 1;
      var acc, afters := StepUpTo(p, k, v, s), DamagedFrom(p, k, s);
      WeightOfStep(p, k, v, sizes, s);
      DamagedFromBound(p, k, s);
      assert StepUpTo(p, k, v, n) == AddOffsets(acc, 0, afters, v[s]);
      CountOverDamaged(p, k, s, sizes);
      WeightOfAddAll(p, acc, afters, v[s], sizes);
      assert Weight(p, v, [k] + sizes, n) == Weight(p, v, [k] + sizes, s) + v[s] * Count(p, s, [k] + sizes);
    }
  }

  lemma {:induction false} WeightOfRun(p: string, v: seq<nat>, sizes: seq<nat>)
    requires WellFormed(p) && Positive(sizes)
    requires |v| == |p| + 1
    ensures Weight(p, Run(p, v, sizes), [], |v|) == Weight(p, v, sizes, |v|)
    decreases |sizes|
  {
    if sizes != [] {
      assert sizes == [sizes[0]] + sizes[1..];
      WeightOfRun(p, StepUpTo(p, sizes[0], v, |v|), sizes[1..]);
      WeightOfStep(p, sizes[0], v, sizes[1..], |v|);
    }
  }

  /** With no group left, the only arrangement leaves no '#' behind. */
  lemma {:induction false} CountWhenDone(p: string, t: nat)
    requires t <= |p|
    ensures Count(p, t, []) == if '#' in p[t..] then 0 else 1
    decreases |p| - t
  {
    if t < |p| {
      CountWhenDone(p, t + 1);
      assert p[t..] == [p[t]] + p[t + 1..];
    }
  }

  lemma {:induction false} WeightWhenDone(p: string, v: seq<nat>, n: nat)
    requires n <= |v| <= |p| + 1
    ensures Weight(p, v, [], n) == Finished(p, v, n)
  {
    if n > 0 {
      WeightWhenDone(p, v, n - 1);
      CountWhenDone(p, n - 1);
    }
  }

  lemma {:induction false} WeightOfStart(p: string, v: seq<nat>, sizes: seq<nat>, n: nat)
    requires n <= |v| == |p| + 1
    requires forall t :: 0 <= t < |v| ==> v[t] == if t == 0 then 1 else 0
    ensures Weight(p, v, sizes, n) == if n == 0 then 0 else Count(p, 0, sizes)
  {
    if n > 0 { WeightOfStart(p, v, sizes, n - 1); }
  }

  /** The unfolded table counts exactly the arrangements. */
  lemma ArrangementsAreCount(p: string, sizes: seq<nat>)
    requires WellFormed(p) && Positive(sizes)
    ensures Arrangements(p, sizes) == Count(p, 0, sizes)
  {
    var v := seq(|p| + 1, t => if t == 0 then 1 else 0);
    WeightOfRun(p, v, sizes);
    WeightWhenDone(p, Run(p, v, sizes), |v|);
    WeightOfStart(p, v, sizes, |v|);
  }

  /** Both parts agree on every well-formed record. */
  lemma PartsAgree(p: string, sizes: seq<nat>)
    requires WellFormed(p) && Positive(sizes)
    ensures Arrangements(p, sizes) == Day12Part1.Arrangements(p, sizes)
  {
    ArrangementsAreCount(p, sizes);
    Day12Part1.ArrangementsAreCount(p, sizes);
  }

  lemma {:induction false} ParsedSizesAppend(a: seq<string>, b: seq<string>)
    ensures ParsedSizes(a + b) == ParsedSizes(a) + ParsedSizes(b)
  {
    if a != [] {
      assert (a + b)[1..] == a[1..] + b;
      assert (a + b)[0] == a[0];
      ParsedSizesAppend(a[1..], b);
      match ParseNat(a[0])
      case Some(n) =>
        assert ParsedSizes(a + b) == [n] + ParsedSizes(a[1..] + b);
        assert [n] + (ParsedSizes(a[1..]) + ParsedSizes(b)) == ([n] + ParsedSizes(a[1..])) + ParsedSizes(b);
      case None =>
        assert ParsedSizes(a + b) == ParsedSizes(a[1..] + b);
    } else {
      assert a + b == b;
    }
  }

  lemma {:induction false} JoinAppend(x: seq<string>, y: seq<string>, sep: string)
    requires |x| > 0 && |y| > 0
    ensures Join(x + y, sep) == Join(x, sep) + sep + Join(y, sep)
  {
    if |x| > 1 {
      assert (x + y)[1..] == x[1..] + y;
      JoinAppend(x[1..], y, sep);
    } else {
      assert (x + y)[1..] == y;
    }
  }

  /** Splitting on ',' distributes over a ',' between two lists. */
  lemma SplitAppend(a: string, b: string)
    ensures Split(a + "," + b, ",") == Split(a, ",") + Split(b, ",")
  {
    var x, y := Split(a, ","), Split(b, ",");
    forall i | 0 <= i < |x + y| ensures ',' !in (x + y)[i] {
      var part := (x + y)[i];
      forall j | 0 <= j < |part| ensures part[j] != ',' {
        assert !OccursAt(part, ",", j);
        assert part[j..j + 1] == [part[j]];
      }
    }
    JoinAppend(x, y, ",");
    SplitOfJoin(x + y, ",");
  }

  /** The unfolded size list parses to the sizes five times over. */
  lemma UnfoldedSizes(g: string)
    ensures ParsedSizes(Split(UnfoldSizes(g), ",")) == Repeat5(ParsedSizes(Split(g, ",")))
  {
    var s := Split(g, ",");
    var l2 := g + "," + g;
    var l3 := l2 + "," + g;
    var l4 := l3 + "," + g;
    assert UnfoldSizes(g) == l4 + "," + g;
    SplitAppend(g, g);
    SplitAppend(l2, g);
    SplitAppend(l3, g);
    SplitAppend(l4, g);
    ParsedSizesAppend(s, s);
    ParsedSizesAppend(s + s, s);
    ParsedSizesAppend(s + s + s, s);
    ParsedSizesAppend(s + s + s + s, s);
  }

  lemma PositiveAppend(a: seq<nat>, b: seq<nat>)
    requires Positive(a) && Positive(b)
    ensures Positive(a + b)
  {
    forall i | 0 <= i < |a + b| ensures (a + b)[i] >= 1 {
      if i >= |a| { assert (a + b)[i] == b[i - |a|]; }
    }
  }

  lemma PositiveRepeat5(s: seq<nat>)
    requires Positive(s)
    ensures Positive(Repeat5(s))
  {
    PositiveAppend(s, s);
    PositiveAppend(s + s, s);
    PositiveAppend(s + s + s, s);
    PositiveAppend(s + s + s + s, s);
  }

  /** `process_line`: none when the record lacks a space; otherwise the count on the
      pattern and sizes unfolded five times. */
  function ProcessLine(line: string): (r: Option<nat>)
    ensures r.None? <==> SplitOnce(line, " ").None?
  {
    match SplitOnce(line, " ")
    case None => None
    case Some((pattern, groups)) =>
      Some(Arrangements(Unfold(pattern), ParsedSizes(Split(UnfoldSizes(groups), ","))))
  }

  /** On a well-formed record, the answer for a line is the number of arrangements of the
      unfolded record. */
  lemma ProcessLineIsCount(line: string)
    requires SplitOnce(line, " ").Some?
    requires WellFormed(SplitOnce(line, " ").value.0)
    requires Positive(ParsedSizes(Split(SplitOnce(line, " ").value.1, ",")))
    ensures ProcessLine(line) == Some(Count(Unfold(SplitOnce(line, " ").value.0), 0,
      Repeat5(ParsedSizes(Split(SplitOnce(line, " ").value.1, ",")))))
  {
    var (pattern, groups) := SplitOnce(line, " ").value;
    UnfoldedSizes(groups);
    PositiveRepeat5(ParsedSizes(Split(groups, ",")));
    ArrangementsAreCount(Unfold(pattern), Repeat5(ParsedSizes(Split(groups, ","))));
  }

  /** `solve`: the sum over the records. */
  function Solve(lines: seq<string>): (r: Option<nat>)
    ensures r.Some? <==> forall i :: 0 <= i < |lines| ==> ProcessLine(lines[i]).Some?
  {
    if lines == [] then Some(0)
    else match (ProcessLine(lines[0]), Solve(lines[1..]))
      case (Some(v), Some(rest)) => Some(v + rest)
      case _ =>
        assert forall i :: 1 <= i < |lines| ==> lines[i] == lines[1..][i - 1];
        None
  }
}
