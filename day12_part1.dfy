/** Day 12, part 1: counting the arrangements of damaged springs ('#') among unknown ones
    ('?') that match a list of contiguous group sizes. The source keeps, for every position
    where the next group may start, the number of ways to get there; here that table is a
    count per position `0..|pattern|` (zero where the source's map has no entry). */
module Day12Part1 {
  import opened Text

  /** All group sizes are at least one, as in every condition record. */
  predicate Positive(sizes: seq<nat>)
  {
    forall i :: 0 <= i < |sizes| ==> sizes[i] >= 1
  }

  /** `is_valid_group(&pattern[start..], size)`: the `size` cells from `start` are '#' or '?'
      and the cell after them, if any, is not '#'. */
  predicate IsValidGroup(p: string, start: nat, size: nat)
    requires start <= |p|
  {
    start + size <= |p|
    && (forall i :: start <= i < start + size ==> p[i] == '#' || p[i] == '?')
    && (start + size == |p| || p[start + size] != '#')
  }

  function Min(a: nat, b: nat): nat
  {
    if a <= b then a else b
  }

  /** The number of ways to place the groups `sizes` in `p[i..]`, deciding one cell at a
      time: a '.' is skipped, a '#' must begin the next group, and a '?' is either. */
  function Count(p: string, i: nat, sizes: seq<nat>): nat
    requires i <= |p|
    decreases |sizes|, |p| - i, 1
  {
    if i == |p| then (if sizes == [] then 1 else 0)
    else if p[i] == '.' then Count(p, i + 1, sizes)
    else if p[i] == '#' then Place(p, i, sizes)
    else Count(p, i + 1, sizes) + Place(p, i, sizes)
  }

  /** The number of ways in which the first group starts exactly at `i`. */
  function Place(p: string, i: nat, sizes: seq<nat>): nat
    requires i <= |p|
    decreases |sizes|, |p| - i, 0
  {
    if sizes == [] || !IsValidGroup(p, i, sizes[0]) then 0
    else Count(p, Min(i + sizes[0] + 1, |p|), sizes[1..])
  }

  /** The first '#' at or after `i`, or the length when there is none. */
  function FirstHash(p: string, i: nat): (h: nat)
    requires i <= |p|
    ensures i <= h <= |p|
    ensures h < |p| ==> p[h] == '#'
    ensures forall j :: i <= j < h ==> p[j] != '#'
    decreases |p| - i
  {
    if i == |p| || p[i] == '#' then i else FirstHash(p, i + 1)
  }

  /** `initial_states`: one way to start the first group at each position up to the first
      '#', or anywhere when there is none. */
  function InitialStates(p: string): (v: seq<nat>)
    ensures |v| == |p| + 1
    ensures forall t :: 0 <= t < |v| ==> v[t] == if t <= FirstHash(p, 0) then 1 else 0
  {
    seq(|p| + 1, t => if t <= FirstHash(p, 0) then 1 else 0)
  }

  /** The offsets from `o` on that `after_hashes_positions` yields. */
  function OffsetsFrom(a: string, o: nat): (r: seq<nat>)
    requires 1 <= o <= |a|
    ensures forall i :: 0 <= i < |r| ==> o <= r[i] <= |a|
    decreases |a| - o
  {
    if o == |a| then [o]
    else if a[o] == '.' then OffsetsFrom(a, o + 1)
    else if a[o] == '#' then [o]
    else [o] + OffsetsFrom(a, o + 1)
  }

  /** The offsets from `o` are the cells up to and including the first '#' that are not
      '.', and the end when no '#' comes first. */
  lemma {:induction false} OffsetsFromMembers(a: string, o: nat)
    requires 1 <= o <= |a|
    ensures forall x :: x in OffsetsFrom(a, o) <==>
      o <= x <= |a| && (x == |a| || a[x] != '.') && forall j :: o <= j < x ==> a[j] != '#'
    decreases |a| - o
  {
    if o < |a| && a[o] != '#' {
      OffsetsFromMembers(a, o + 1);
    }
  }

  /** `after_hashes_positions`: where the next group may start after a group ending at the
      start of `a`. The cell at offset 0 separates the groups and '.' cells are skipped; the
      scan stops after the first '#', and yields the end when there is no '#'. */
  function AfterOffsets(a: string): (r: seq<nat>)
    ensures forall i :: 0 <= i < |r| ==> r[i] <= |a|
  {
    if |a| == 0 then [0] else if a[0] == '#' then [] else OffsetsFrom(a, 1)
  }

  /** After a separating cell, the next group may start at any later cell that is not '.',
      up to and including the first '#', and at the end when there is no '#'. Right after a
      group that fills the pattern, it starts at the end. */
  lemma AfterOffsetsMembers(a: string)
    ensures a == [] ==> AfterOffsets(a) == [0]
    ensures a != [] && a[0] != '#' ==> forall x :: x in AfterOffsets(a) <==>
      1 <= x <= |a| && (x == |a| || a[x] != '.') && forall j :: 1 <= j < x ==> a[j] != '#'
  {
    if a != [] && a[0] != '#' {
      OffsetsFromMembers(a, 1);
    }
  }

  /** The generator of `after_hashes_positions`, with its `prev` and `pos` state: each step
      yields the offset with the cell there, if any, and stops once that was a '#' or the
      end; offset 0 with a cell and the offsets of '.' cells are filtered out. */
  method AfterHashesPositions(a: string) returns (offsets: seq<nat>)
    ensures offsets == AfterOffsets(a)
  {
    var prev: Option<char> := None;
    var pos := 0;
    offsets := [];
    while prev != Some('#')
      invariant pos <= |a| + 1
      invariant prev.None? <==> pos == 0
      invariant pos == 0 ==> offsets == []
      invariant prev.Some? && prev != Some('#') ==> 1 <= pos <= |a|
      invariant prev.Some? && prev != Some('#') ==> offsets + OffsetsFrom(a, pos) == AfterOffsets(a)
      invariant prev == Some('#') ==> offsets == AfterOffsets(a)
      decreases |a| + 1 - pos
    {
      if pos < |a| {
        var c := a[pos];
        if pos == 0 {
          assert AfterOffsets(a) == if c == '#' then [] else OffsetsFrom(a, 1);
        } else if c == '.' {
          assert OffsetsFrom(a, pos) == OffsetsFrom(a, pos + 1);
        } else if c == '#' {
          assert OffsetsFrom(a, pos) == [pos];
          offsets := offsets + [pos];
        } else {
          assert OffsetsFrom(a, pos) == [pos] + OffsetsFrom(a, pos + 1);
          offsets := offsets + [pos];
          assert offsets + OffsetsFrom(a, pos + 1) == AfterOffsets(a);
        }
        prev := Some(c);
      } else {
        assert pos == 0 ==> AfterOffsets(a) == [0];
        assert pos > 0 ==> OffsetsFrom(a, pos) == [pos];
        offsets := offsets + [pos];
        prev := Some('#');
      }
      pos := pos + 1;
    }
  }

  /** Adds `c` ways at `base + o` for every offset `o`: the map's `entry(..).and_modify(..)
      .or_insert(..)`. */
  function AddOffsets(v: seq<nat>, base: nat, offsets: seq<nat>, c: nat): (r: seq<nat>)
    requires forall i :: 0 <= i < |offsets| ==> base + offsets[i] < |v|
    ensures |r| == |v|
    decreases |offsets|
  {
    if offsets == [] then v
    else AddOffsets(v[base + offsets[0] := v[base + offsets[0]] + c], base, offsets[1..], c)
  }

  /** The fold over the states `0..n` for one group size. */
  function StepUpTo(p: string, size: nat, v: seq<nat>, n: nat): (r: seq<nat>)
    requires |v| == |p| + 1 && n <= |v|
    ensures |r| == |v|
  {
    if n == 0 then seq(|v|, _ => 0)
    else
      var acc := StepUpTo(p, size, v, n - 1);
      var s := n - 1;
      if IsValidGroup(p, s, size) then AddOffsets(acc, s + size, AfterOffsets(p[s + size..]), v[s])
      else acc
  }

  function Step(p: string, size: nat, v: seq<nat>): (r: seq<nat>)
    requires |v| == |p| + 1
    ensures |r| == |v|
  {
    StepUpTo(p, size, v, |v|)
  }

  /** The fold over the group sizes. */
  function Run(p: string, v: seq<nat>, sizes: seq<nat>): (r: seq<nat>)
    requires |v| == |p| + 1
    ensures |r| == |v|
    decreases |sizes|
  {
    if sizes == [] then v else Run(p, Step(p, sizes[0], v), sizes[1..])
  }

  /** `filter_map(|s| s.parse::<usize>().ok())`. */
  function ParsedSizes(parts: seq<string>): (r: seq<nat>)
    ensures |r| <= |parts|
  {
    if parts == [] then []
    else match ParseNat(parts[0])
      case Some(n) => [n] + ParsedSizes(parts[1..])
      case None => ParsedSizes(parts[1..])
  }

  /** The count with the candidate states after all groups, read at the pattern's end. */
  function Arrangements(p: string, sizes: seq<nat>): nat
  {
    Run(p, InitialStates(p), sizes)[|p|]
  }

  // The weight of a table: every state's ways times the ways to finish from it.

  /** The ways to finish from a state at `t` with the groups `sizes` still to place. */
  function Finish(p: string, t: nat, sizes: seq<nat>): nat
    requires t <= |p|
  {
    if sizes == [] then (if t == |p| then 1 else 0) else Place(p, t, sizes)
  }

  function Weight(p: string, v: seq<nat>, sizes: seq<nat>, n: nat): nat
    requires n <= |v| <= |p| + 1
  {
    if n == 0 then 0 else Weight(p, v, sizes, n - 1) + v[n - 1] * Finish(p, n - 1, sizes)
  }

  function FinishOver(p: string, base: nat, offsets: seq<nat>, sizes: seq<nat>): nat
    requires forall i :: 0 <= i < |offsets| ==> base + offsets[i] <= |p|
  {
    if offsets == [] then 0
    else Finish(p, base + offsets[0], sizes) + FinishOver(p, base, offsets[1..], sizes)
  }

  function FinishRange(p: string, i: nat, j: nat, sizes: seq<nat>): nat
    requires i <= j <= |p| + 1
    decreases j - i
  {
    if i == j then 0 else Finish(p, i, sizes) + FinishRange(p, i + 1, j, sizes)
  }

  lemma {:induction false} WeightOfZeros(p: string, v: seq<nat>, sizes: seq<nat>, n: nat)
    requires n <= |v| <= |p| + 1
    requires forall t :: 0 <= t < |v| ==> v[t] == 0
    ensures Weight(p, v, sizes, n) == 0
  {
    if n > 0 { WeightOfZeros(p, v, sizes, n - 1); }
  }

  lemma {:induction false} WeightOfAdd(p: string, v: seq<nat>, t: nat, c: nat, sizes: seq<nat>, n: nat)
    requires t < |v| <= |p| + 1 && n <= |v|
    ensures Weight(p, v[t := v[t] + c], sizes, n)
      == Weight(p, v, sizes, n) + (if t < n then c * Finish(p, t, sizes) else 0)
  {
    if n > 0 {
      WeightOfAdd(p, v, t, c, sizes, n - 1);
      if n - 1 == t {
        var f := Finish(p, t, sizes);
        MulDistributes(f, v[t], c);
      }
    }
  }

  lemma {:induction false} WeightOfAddOffsets(p: string, v: seq<nat>, base: nat, offsets: seq<nat>, c: nat, sizes: seq<nat>)
    requires |v| == |p| + 1
    requires forall i :: 0 <= i < |offsets| ==> base + offsets[i] < |v|
    ensures Weight(p, AddOffsets(v, base, offsets, c), sizes, |v|)
      == Weight(p, v, sizes, |v|) + c * FinishOver(p, base, offsets, sizes)
    decreases |offsets|
  {
    if offsets != [] {
      var t := base + offsets[0];
      WeightOfAdd(p, v, t, c, sizes, |v|);
      WeightOfAddOffsets(p, v[t := v[t] + c], base, offsets[1..], c, sizes);
      var f, g := Finish(p, t, sizes), FinishOver(p, base, offsets[1..], sizes);
      MulDistributes(c, f, g);
    }
  }

  /** The end of the pattern finishes only when no group is left. */
  lemma FinishAtEnd(p: string, sizes: seq<nat>)
    requires Positive(sizes)
    ensures Finish(p, |p|, sizes) == Count(p, |p|, sizes)
  {
    if sizes != [] {
      assert sizes[0] >= 1;
      assert !IsValidGroup(p, |p|, sizes[0]);
    }
  }

  /** A state at a '#' or '?' finishes in the ways the group can start there. */
  lemma FinishAtCell(p: string, t: nat, sizes: seq<nat>)
    requires t < |p| && p[t] != '.'
    ensures Finish(p, t, sizes) == Place(p, t, sizes)
  {
  }

  /** The offsets from `o` after a group ending at `b` finish in every way to place the
      remaining groups from `b + o`. */
  lemma {:induction false} FinishOverOffsets(p: string, b: nat, o: nat, sizes: seq<nat>)
    requires Positive(sizes)
    requires b <= |p| && 1 <= o <= |p| - b
    ensures FinishOver(p, b, OffsetsFrom(p[b..], o), sizes) == Count(p, b + o, sizes)
    decreases |p| - b - o
  {
    if o == |p| - b {
      FinishAtEnd(p, sizes);
    } else {
      FinishOverOffsets(p, b, o + 1, sizes);
      if p[b + o] == '.' {
        FinishOverDot(p, b, o, sizes);
      } else if p[b + o] == '#' {
        FinishOverHash(p, b, o, sizes);
      } else {
        FinishOverUnknown(p, b, o, sizes);
      }
    }
  }

  /** A '.' adds no offset and no way to start a group. */
  lemma FinishOverDot(p: string, b: nat, o: nat, sizes: seq<nat>)
    requires b <= |p| && 1 <= o < |p| - b && p[b + o] == '.'
    requires FinishOver(p, b, OffsetsFrom(p[b..], o + 1), sizes) == Count(p, b + o + 1, sizes)
    ensures FinishOver(p, b, OffsetsFrom(p[b..], o), sizes) == Count(p, b + o, sizes)
  {
    assert p[b..][o] == p[b + o];
  }

  /** A '#' is the last offset, and the next group must start on it. */
  lemma FinishOverHash(p: string, b: nat, o: nat, sizes: seq<nat>)
    requires b <= |p| && 1 <= o < |p| - b && p[b + o] == '#'
    ensures FinishOver(p, b, OffsetsFrom(p[b..], o), sizes) == Count(p, b + o, sizes)
  {
    assert p[b..][o] == p[b + o];
    FinishAtCell(p, b + o, sizes);
  }

  /** A '?' is an offset, and the next group may start on it or later. */
  lemma FinishOverUnknown(p: string, b: nat, o: nat, sizes: seq<nat>)
    requires b <= |p| && 1 <= o < |p| - b && p[b + o] != '.' && p[b + o] != '#'
    requires FinishOver(p, b, OffsetsFrom(p[b..], o + 1), sizes) == Count(p, b + o + 1, sizes)
    ensures FinishOver(p, b, OffsetsFrom(p[b..], o), sizes) == Count(p, b + o, sizes)
  {
    var a := p[b..];
    assert a[o] == p[b + o];
    FinishAtCell(p, b + o, sizes);
    assert OffsetsFrom(a, o)[1..] == OffsetsFrom(a, o + 1);
  }

  /** Every candidate after a valid group finishes in the ways that start the group there. */
  lemma FinishAfterGroup(p: string, s: nat, size: nat, sizes: seq<nat>)
    requires Positive(sizes)
    requires s <= |p| && IsValidGroup(p, s, size)
    ensures FinishOver(p, s + size, AfterOffsets(p[s + size..]), sizes) == Place(p, s, [size] + sizes)
  {
    var b := s + size;
    assert ([size] + sizes)[1..] == sizes;
    if b == |p| {
      FinishAtEnd(p, sizes);
    } else {
      FinishOverOffsets(p, b, 1, sizes);
    }
  }

  lemma {:induction false} WeightOfStep(p: string, size: nat, v: seq<nat>, sizes: seq<nat>, n: nat)
    requires Positive(sizes)
    requires |v| == |p| + 1 && n <= |v|
    ensures Weight(p, StepUpTo(p, size, v, n), sizes, |v|) == Weight(p, v, [size] + sizes, n)
  {
    if n == 0 {
      WeightOfZeros(p, StepUpTo(p, size, v, 0), sizes, |v|);
    } else {
      var s := n - 1;
      WeightOfStep(p, size, v, sizes, n - 1);
      if IsValidGroup(p, s, size) {
        FinishAfterGroup(p, s, size, sizes);
        WeightOfAddOffsets(p, StepUpTo(p, size, v, n - 1), s + size, AfterOffsets(p[s + size..]), v[s], sizes);
      }
    }
  }

  lemma {:induction false} WeightOfRun(p: string, v: seq<nat>, sizes: seq<nat>)
    requires Positive(sizes)
    requires |v| == |p| + 1
    ensures Weight(p, Run(p, v, sizes), [], |v|) == Weight(p, v, sizes, |v|)
    decreases |sizes|
  {
    if sizes != [] {
      assert sizes == [sizes[0]] + sizes[1..];
      WeightOfRun(p, Step(p, sizes[0], v), sizes[1..]);
      WeightOfStep(p, sizes[0], v, sizes[1..], |v|);
    }
  }

  /** With no group left, the weight is the ways at the end of the pattern. */
  lemma {:induction false} WeightWhenDone(p: string, v: seq<nat>, n: nat)
    requires n <= |v| == |p| + 1
    ensures Weight(p, v, [], n) == if n == |v| then v[|p|] else 0
  {
    if n > 0 { WeightWhenDone(p, v, n - 1); }
  }

  lemma {:induction false} WeightOfInitial(p: string, sizes: seq<nat>, n: nat)
    requires n <= |p| + 1
    ensures Weight(p, InitialStates(p), sizes, n) == FinishRange(p, 0, Min(n, FirstHash(p, 0) + 1), sizes)
  {
    if n > 0 {
      WeightOfInitial(p, sizes, n - 1);
      if n - 1 <= FirstHash(p, 0) {
        FinishRangeSnoc(p, 0, n - 1, sizes);
      }
    }
  }

  lemma {:induction false} FinishRangeSnoc(p: string, i: nat, j: nat, sizes: seq<nat>)
    requires i <= j <= |p|
    ensures FinishRange(p, i, j + 1, sizes) == FinishRange(p, i, j, sizes) + Finish(p, j, sizes)
    decreases j - i
  {
    if i < j { FinishRangeSnoc(p, i + 1, j, sizes); }
  }

  /** Starting the first group anywhere up to the first '#' covers every arrangement. */
  lemma {:induction false} FinishUpToFirstHash(p: string, i: nat, sizes: seq<nat>)
    requires Positive(sizes)
    requires i <= |p|
    ensures FinishRange(p, i, FirstHash(p, i) + 1, sizes) == Count(p, i, sizes)
    decreases |p| - i
  {
    if i == |p| {
      FinishAtEnd(p, sizes);
    } else if p[i] == '#' {
      FinishAtCell(p, i, sizes);
    } else {
      FinishUpToFirstHash(p, i + 1, sizes);
      if p[i] != '.' { FinishAtCell(p, i, sizes); }
    }
  }

  /** The table the source builds counts exactly the arrangements: its entry at the end of
      the pattern is the number of ways to place the groups. */
  lemma ArrangementsAreCount(p: string, sizes: seq<nat>)
    requires Positive(sizes)
    ensures Arrangements(p, sizes) == Count(p, 0, sizes)
  {
    var v := InitialStates(p);
    WeightOfRun(p, v, sizes);
    WeightWhenDone(p, Run(p, v, sizes), |v|);
    WeightOfInitial(p, sizes, |v|);
    FinishUpToFirstHash(p, 0, sizes);
  }

  /** `process_line`: none when the record lacks a space. */
  function ProcessLine(line: string): (r: Option<nat>)
    ensures r.None? <==> SplitOnce(line, " ").None?
  {
    match SplitOnce(line, " ")
    case None => None
    case Some((pattern, groups)) => Some(Arrangements(pattern, ParsedSizes(Split(groups, ","))))
  }

  /** The answer for a record is the number of its arrangements. */
  lemma ProcessLineIsCount(line: string)
    requires SplitOnce(line, " ").Some?
    requires Positive(ParsedSizes(Split(SplitOnce(line, " ").value.1, ",")))
    ensures ProcessLine(line)
      == Some(Count(SplitOnce(line, " ").value.0, 0, ParsedSizes(Split(SplitOnce(line, " ").value.1, ","))))
  {
    var (pattern, groups) := SplitOnce(line, " ").value;
    ArrangementsAreCount(pattern, ParsedSizes(Split(groups, ",")));
  }

  /** `solve`: the sum over the records; none when one of them has no space. */
  function Solve(lines: seq<string>): (r: Option<nat>)
    ensures r.Some? <==> forall i :: 0 <= i < |lines| ==> ProcessLine(lines[i]).Some?
  {
    if lines == [] then Some(0)
    else match (ProcessLine(lines[0]), Solve(lines[1..]))
      case (Some(v), Some(rest)) => Some(v + rest)
      case _ =>
        assert forall i :: 1 <= i < |lines| ==> lines[i] == lines[1..][i - 1];
        None
  }
}
