/** Day 5: seeds pass through a chain of maps. Each map is a list of lines
    "<destination> <source> <length>": a value inside a source range moves by the offset
    to its destination range, any other value stays. Part 1 converts single seeds;
    part 2 converts whole ranges of seeds, splitting them at the map boundaries. */
module Day05 {
  import opened Text

  /** A half-open range `start..end`. */
  datatype Interval = Interval(start: nat, end: nat)

  predicate Contains(r: Interval, x: int) { r.start <= x < r.end }

  predicate ValidInterval(r: Interval) { r.start <= r.end }

  function Len(r: Interval): nat { if r.end >= r.start then r.end - r.start else 0 }

  function TotalLen(rs: seq<Interval>): nat
  {
    if rs == [] then 0 else Len(rs[0]) + TotalLen(rs[1..])
  }

  /** Some interval of `rs` contains `x`. */
  predicate InSome(rs: seq<Interval>, x: int)
  {
    exists i :: 0 <= i < |rs| && Contains(rs[i], x)
  }

  predicate AllValid(rs: seq<Interval>)
  {
    forall i :: 0 <= i < |rs| ==> ValidInterval(rs[i])
  }

  /** One line of a map: source and destination ranges of the same length. */
  datatype MapRange = MapRange(destination: Interval, source: Interval)

  predicate ValidRange(mr: MapRange)
  {
    ValidInterval(mr.source) && ValidInterval(mr.destination) && Len(mr.destination) == Len(mr.source)
  }

  datatype Map = Map(name: string, ranges: seq<MapRange>)

  predicate ValidMap(m: Map)
  {
    forall k :: 0 <= k < |m.ranges| ==> ValidRange(m.ranges[k])
  }

  /** A value of the source range moved by the offset to the destination range. */
  function Shift(mr: MapRange, x: nat): nat
    requires x >= mr.source.start
  {
    x - mr.source.start + mr.destination.start
  }

  // Parsing

  /** `MapRange::try_parse`: three numbers separated by single spaces. */
  function ParseMapRange(line: string): (r: Option<MapRange>)
    ensures r.Some? ==> ValidRange(r.value)
  {
    match SplitOnce(line, " ")
    case None => None
    case Some((destination, rest)) =>
      match SplitOnce(rest, " ")
      case None => None
      case Some((source, length)) => RangeOf(destination, source, length)
  }

  /** The ranges three number words describe, if all of them parse. */
  function RangeOf(destination: string, source: string, length: string): (r: Option<MapRange>)
    ensures r.Some? ==> ValidRange(r.value)
  {
    match (ParseNat(destination), ParseNat(source), ParseNat(length))
    case (Some(d), Some(s), Some(len)) => Some(MapRange(Interval(d, d + len), Interval(s, s + len)))
    case _ => None
  }

  lemma NoSpaceInNumber(n: nat)
    ensures ' ' !in NatToString(n)
  {
    var t := NatToString(n);
    forall k | 0 <= k < |t| ensures t[k] != ' ' { assert IsDigit(t[k]); }
  }

  /** The two splits of a line of three space-free words. */
  lemma SplitThreeWords(a: string, b: string, c: string)
    requires ' ' !in a && ' ' !in b
    ensures SplitOnce(a + " " + b + " " + c, " ") == Some((a, b + " " + c))
    ensures SplitOnce(b + " " + c, " ") == Some((b, c))
  {
    assert a + " " + b + " " + c == a + " " + (b + " " + c);
    SplitOnceOfJoined(a, " ", b + " " + c);
    SplitOnceOfJoined(b, " ", c);
  }

  /** Three numbers separated by single spaces parse into the ranges they describe. */
  lemma ParseMapRangeOf(a: string, b: string, c: string, d: nat, s: nat, len: nat)
    requires ' ' !in a && ' ' !in b
    requires ParseNat(a) == Some(d) && ParseNat(b) == Some(s) && ParseNat(c) == Some(len)
    ensures ParseMapRange(a + " " + b + " " + c) == Some(MapRange(Interval(d, d + len), Interval(s, s + len)))
  {
    RangeOfParsed(a, b, c, d, s, len);
    SplitThreeWords(a, b, c);
  }

  lemma RangeOfParsed(a: string, b: string, c: string, d: nat, s: nat, len: nat)
    requires ParseNat(a) == Some(d) && ParseNat(b) == Some(s) && ParseNat(c) == Some(len)
    ensures RangeOf(a, b, c) == Some(MapRange(Interval(d, d + len), Interval(s, s + len)))
  {
  }

  /** A printed map line parses back to the ranges it describes. */
  lemma ParseMapRangeLine(d: nat, s: nat, len: nat)
    ensures ParseMapRange(NatToString(d) + " " + NatToString(s) + " " + NatToString(len))
      == Some(MapRange(Interval(d, d + len), Interval(s, s + len)))
  {
    NoSpaceInNumber(d);
    NoSpaceInNumber(s);
    ParseNatOfNatToString(d);
    ParseNatOfNatToString(s);
    ParseNatOfNatToString(len);
    ParseMapRangeOf(NatToString(d), NatToString(s), NatToString(len), d, s, len);
  }

  /** `map_while(MapRange::try_parse)` on the shared line iterator: the ranges up to the
      first line that is not one, and the lines after that line, which is consumed. */
  function TakeRanges(lines: seq<string>): (r: (seq<MapRange>, seq<string>))
    ensures |r.1| < |lines| || (lines == [] && r.1 == [])
    ensures forall k :: 0 <= k < |r.0| ==> ValidRange(r.0[k])
  {
    if lines == [] then ([], [])
    else
      var mr := ParseMapRange(lines[0]);
      if mr.None? then ([], lines[1..])
      else
        var rest := TakeRanges(lines[1..]);
        ([mr.value] + rest.0, rest.1)
  }

  /** `get_maps`: repeated `Map::try_parse`, each reading a "<name> map:" header and the
      ranges below it, until the lines run out or a header is missing. */
  function ParseMaps(lines: seq<string>): (r: seq<Map>)
    ensures forall i :: 0 <= i < |r| ==> ValidMap(r[i])
    decreases |lines|
  {
    if lines == [] then []
    else match SplitOnce(lines[0], " map:")
      case None => []
      case Some((name, _)) =>
        var (ranges, rest) := TakeRanges(lines[1..]);
        [Map(name, ranges)] + ParseMaps(rest)
  }

  /** The numbers after ": " on the first line; `None` where the source unwraps. */
  function SeedTokens(lines: seq<string>): Option<seq<string>>
  {
    if lines == [] then None
    else match SplitOnce(lines[0], ": ")
      case None => None
      case Some((_, seeds)) => Some(SplitWhitespace(seeds))
  }

  function ParseAll(tokens: seq<string>): (r: Option<seq<nat>>)
    ensures r.Some? ==> |r.value| == |tokens|
  {
    if tokens == [] then Some([])
    else match (ParseNat(tokens[0]), ParseAll(tokens[1..]))
      case (Some(n), Some(rest)) => Some([n] + rest)
      case _ => None
  }

  /** `get_seed_ranges`: pairs "start length" read while both parse. */
  function SeedRanges(tokens: seq<string>): (r: seq<Interval>)
    ensures AllValid(r)
  {
    if |tokens| < 2 then []
    else match (ParseNat(tokens[0]), ParseNat(tokens[1]))
      case (Some(start), Some(len)) => [Interval(start, start + len)] + SeedRanges(tokens[2..])
      case _ => []
  }

  // Converting single values (part 1)

  /** The value after one map: moved by the first range whose source contains it. */
  function Convert(ranges: seq<MapRange>, x: nat): nat
  {
    if ranges == [] then x
    else if Contains(ranges[0].source, x) then Shift(ranges[0], x)
    else Convert(ranges[1..], x)
  }

  /** The first range containing the value decides, whatever the later ranges say. */
  lemma {:induction false} ConvertFirstMatch(ranges: seq<MapRange>, x: nat, k: nat)
    requires k < |ranges| && Contains(ranges[k].source, x)
    requires forall j :: 0 <= j < k ==> !Contains(ranges[j].source, x)
    ensures Convert(ranges, x) == Shift(ranges[k], x)
  {
    if k > 0 {
      assert !Contains(ranges[0].source, x);
      ConvertFirstMatch(ranges[1..], x, k - 1);
    }
  }

  /** A value in no source range is left as it is. */
  lemma {:induction false} ConvertUnmatched(ranges: seq<MapRange>, x: nat)
    requires forall j :: 0 <= j < |ranges| ==> !Contains(ranges[j].source, x)
    ensures Convert(ranges, x) == x
  {
    if ranges != [] {
      assert !Contains(ranges[0].source, x);
      ConvertUnmatched(ranges[1..], x);
    }
  }

  /** `Map::convert`: the loop over the ranges that returns at the first one containing
      the value. */
  method ConvertValue(m: Map, value: nat) returns (r: nat)
    ensures r == Convert(m.ranges, value)
  {
    var k := 0;
    while k < |m.ranges|
      invariant 0 <= k <= |m.ranges|
      invariant Convert(m.ranges, value) == Convert(m.ranges[k..], value)
    {
      var range := m.ranges[k];
      if range.source.start <= value < range.source.end {
        return value - range.source.start + range.destination.start;
      }
      assert m.ranges[k..][1..] == m.ranges[k + 1..];
      k := k + 1;
    }
    return value;
  }

  /** A seed's location: the seed converted by every map in turn. */
  function Location(maps: seq<Map>, x: nat): nat
  {
    if maps == [] then x else Location(maps[1..], Convert(maps[0].ranges, x))
  }

  function Minimum(xs: seq<nat>): (r: Option<nat>)
    ensures r.None? <==> xs == []
    ensures r.Some? ==> r.value in xs && forall i :: 0 <= i < |xs| ==> r.value <= xs[i]
  {
    if xs == [] then None
    else match Minimum(xs[1..])
      case None => Some(xs[0])
      case Some(m) => Some(if xs[0] <= m then xs[0] else m)
  }

  function Locations(maps: seq<Map>, seeds: seq<nat>): (r: seq<nat>)
    ensures |r| == |seeds|
    ensures forall i :: 0 <= i < |seeds| ==> r[i] == Location(maps, seeds[i])
  {
    if seeds == [] then [] else [Location(maps, seeds[0])] + Locations(maps, seeds[1..])
  }

  /** Part 1: the lowest location of the listed seeds; `None` where the source panics. */
  function SolvePart1(input: string): (r: Option<nat>)
    ensures r.Some? ==> SeedTokens(Lines(input)).Some? && ParseAll(SeedTokens(Lines(input)).value).Some?
    ensures r.Some? ==>
      var lines := Lines(input);
      var seeds := ParseAll(SeedTokens(lines).value).value;
      var maps := ParseMaps(if |lines| >= 2 then lines[2..] else []);
      (exists i :: 0 <= i < |seeds| && r.value == Location(maps, seeds[i])) &&
      forall i :: 0 <= i < |seeds| ==> r.value <= Location(maps, seeds[i])
  {
    var lines := Lines(input);
    match SeedTokens(lines)
    case None => None
    case Some(tokens) =>
      match ParseAll(tokens)
      case None => None
      case Some(seeds) =>
        var maps := ParseMaps(if |lines| >= 2 then lines[2..] else []);
        Minimum(Locations(maps, seeds))
  }

  // Converting ranges (part 2)

  /** `MapRange::convert_range`: `None` when the range misses the source range; otherwise
      the converted overlap and the parts of the range left outside the source. */
  function ConvertRange(mr: MapRange, r: Interval): Option<(Interval, seq<Interval>)>
  {
    var src, dst := mr.source, mr.destination;
    if r.end <= src.start || r.start >= src.end then None
    else if r.start >= src.start then
      if r.end <= src.end then
        Some((Interval(r.start - src.start + dst.start, r.end - src.start + dst.start), []))
      else
        Some((Interval(r.start - src.start + dst.start, dst.end), [Interval(src.end, r.end)]))
    else if r.end > src.end then
      Some((Interval(dst.start, dst.end), [Interval(r.start, src.start), Interval(src.end, r.end)]))
    else
      Some((Interval(dst.start, r.end - src.start + dst.start), [Interval(r.start, src.start)]))
  }

  /** `convert_range` gives `None` exactly for a range disjoint from the source, and moves
      a range the source contains whole, leaving no remainder. */
  lemma ConvertRangeShape(mr: MapRange, r: Interval)
    requires ValidRange(mr) && ValidInterval(r)
    ensures ConvertRange(mr, r).None? <==> r.end <= mr.source.start || r.start >= mr.source.end
    ensures ConvertRange(mr, r).Some? && mr.source.start <= r.start && r.end <= mr.source.end ==>
      ConvertRange(mr, r) == Some((Interval(Shift(mr, r.start), Shift(mr, r.end)), []))
  {
  }

  /** The pieces of `convert_range` are ranges whose lengths add up to the input's. */
  lemma ConvertRangeSizes(mr: MapRange, r: Interval)
    requires ValidRange(mr) && ValidInterval(r) && ConvertRange(mr, r).Some?
    ensures ValidInterval(ConvertRange(mr, r).value.0) && AllValid(ConvertRange(mr, r).value.1)
    ensures Len(ConvertRange(mr, r).value.0) + TotalLen(ConvertRange(mr, r).value.1) == Len(r)
  {
    var src := mr.source;
    var rem := ConvertRange(mr, r).value.1;
    if r.start >= src.start {
      if r.end > src.end {
        assert TotalLen(rem) == Len(rem[0]);
      }
    } else if r.end > src.end {
      assert rem[1..][1..] == [];
      assert TotalLen(rem[1..]) == Len(rem[1]);
    } else {
      assert TotalLen(rem) == Len(rem[0]);
    }
  }

  /** The converted piece is the image of the overlap and the remainders are the rest. */
  lemma ConvertRangeCovers(mr: MapRange, r: Interval)
    requires ValidRange(mr) && ValidInterval(r) && ConvertRange(mr, r).Some?
    ensures var (dest, rem) := ConvertRange(mr, r).value;
      (forall x: nat :: Contains(r, x) && Contains(mr.source, x) ==> Contains(dest, Shift(mr, x))) &&
      (forall x: nat :: Contains(r, x) && !Contains(mr.source, x) ==> InSome(rem, x)) &&
      (forall y :: Contains(dest, y) ==>
        y >= mr.destination.start && Contains(r, y - mr.destination.start + mr.source.start) &&
        Contains(mr.source, y - mr.destination.start + mr.source.start)) &&
      (forall i, y :: 0 <= i < |rem| && Contains(rem[i], y) ==> Contains(r, y) && !Contains(mr.source, y))
  {
    var src := mr.source;
    var rem := ConvertRange(mr, r).value.1;
    forall x: nat | Contains(r, x) && !Contains(src, x) ensures InSome(rem, x) {
      if x < src.start { assert Contains(rem[0], x); } else { assert Contains(rem[|rem| - 1], x); }
    }
  }

  /** The flat-map of one map range over the current source ranges: the converted parts
      it pushes, in order, and the ranges it leaves for the next map range. */
  function Step(mr: MapRange, sources: seq<Interval>): (r: (seq<Interval>, seq<Interval>))
  {
    if sources == [] then ([], [])
    else
      var (pushed, left) := Step(mr, sources[1..]);
      match ConvertRange(mr, sources[0])
      case Some((dest, rem)) => ([dest] + pushed, rem + left)
      case None => (pushed, [sources[0]] + left)
  }

  lemma TotalLenAppend(a: seq<Interval>, b: seq<Interval>)
    ensures TotalLen(a + b) == TotalLen(a) + TotalLen(b)
  {
    if a == [] {
      assert a + b == b;
    } else {
      assert (a + b)[0] == a[0];
      assert (a + b)[1..] == a[1..] + b;
      TotalLenAppend(a[1..], b);
    }
  }

  lemma InSomeAppend(a: seq<Interval>, b: seq<Interval>, x: int)
    ensures InSome(a + b, x) <==> InSome(a, x) || InSome(b, x)
  {
    if InSome(a + b, x) {
      var i :| 0 <= i < |a + b| && Contains((a + b)[i], x);
      if i >= |a| { assert Contains(b[i - |a|], x); }
    }
    if InSome(b, x) {
      var i :| 0 <= i < |b| && Contains(b[i], x);
      assert Contains((a + b)[i + |a|], x);
    }
    if InSome(a, x) {
      var i :| 0 <= i < |a| && Contains(a[i], x);
      assert Contains((a + b)[i], x);
    }
  }

  /** One step keeps the total length, converts every value of the source ranges that
      the map range covers and leaves every other value for later. */
  lemma StepSpec(mr: MapRange, sources: seq<Interval>)
    requires ValidRange(mr) && AllValid(sources)
    ensures AllValid(Step(mr, sources).0) && AllValid(Step(mr, sources).1)
    ensures TotalLen(Step(mr, sources).0) + TotalLen(Step(mr, sources).1) == TotalLen(sources)
    ensures forall x: nat :: InSome(sources, x) && Contains(mr.source, x) ==>
      InSome(Step(mr, sources).0, Shift(mr, x))
    ensures forall x: nat :: InSome(sources, x) && !Contains(mr.source, x) ==> InSome(Step(mr, sources).1, x)
    ensures forall y :: InSome(Step(mr, sources).0, y) ==>
      y >= mr.destination.start && InSome(sources, y - mr.destination.start + mr.source.start) &&
      Contains(mr.source, y - mr.destination.start + mr.source.start)
    ensures forall y :: InSome(Step(mr, sources).1, y) ==> InSome(sources, y) && !Contains(mr.source, y)
  {
    StepSizes(mr, sources);
    StepForward(mr, sources);
    StepBackward(mr, sources);
  }

  lemma {:induction false} StepSizes(mr: MapRange, sources: seq<Interval>)
    requires ValidRange(mr) && AllValid(sources)
    ensures AllValid(Step(mr, sources).0) && AllValid(Step(mr, sources).1)
    ensures TotalLen(Step(mr, sources).0) + TotalLen(Step(mr, sources).1) == TotalLen(sources)
  {
    if sources != [] {
      var head, tail := sources[0], sources[1..];
      StepSizes(mr, tail);
      var (pushed, left) := Step(mr, tail);
      match ConvertRange(mr, head)
      case Some((dest, rem)) =>
        ConvertRangeSizes(mr, head);
        TotalLenAppend(rem, left);
        assert ([dest] + pushed)[1..] == pushed;
        forall i | 0 <= i < |[dest] + pushed| ensures ValidInterval(([dest] + pushed)[i]) {
          if i > 0 { assert ([dest] + pushed)[i] == pushed[i - 1]; }
        }
        forall i | 0 <= i < |rem + left| ensures ValidInterval((rem + left)[i]) {
          if i >= |rem| { assert (rem + left)[i] == left[i - |rem|]; }
        }
      case None =>
        assert ([head] + left)[1..] == left;
        forall i | 0 <= i < |[head] + left| ensures ValidInterval(([head] + left)[i]) {
          if i > 0 { assert ([head] + left)[i] == left[i - 1]; }
        }
    }
  }

  /** A value of `sources` in `xs` is in the head or in the tail. */
  lemma InSomeCons(sources: seq<Interval>)
    requires sources != []
    ensures forall x :: InSome(sources, x) <==> Contains(sources[0], x) || InSome(sources[1..], x)
  {
    forall x | InSome(sources[1..], x) ensures InSome(sources, x) {
      var i :| 0 <= i < |sources[1..]| && Contains(sources[1..][i], x);
      assert Contains(sources[i + 1], x);
    }
    forall x | InSome(sources, x) ensures Contains(sources[0], x) || InSome(sources[1..], x) {
      var i :| 0 <= i < |sources| && Contains(sources[i], x);
      if i > 0 { assert Contains(sources[1..][i - 1], x); }
    }
  }

  lemma {:induction false} StepForward(mr: MapRange, sources: seq<Interval>)
    requires ValidRange(mr) && AllValid(sources)
    ensures forall x: nat :: InSome(sources, x) && Contains(mr.source, x) ==>
      InSome(Step(mr, sources).0, Shift(mr, x))
    ensures forall x: nat :: InSome(sources, x) && !Contains(mr.source, x) ==> InSome(Step(mr, sources).1, x)
  {
    if sources != [] {
      var head, tail := sources[0], sources[1..];
      StepForward(mr, tail);
      InSomeCons(sources);
      var (pushed, left) := Step(mr, tail);
      match ConvertRange(mr, head)
      case Some((dest, rem)) =>
        ConvertRangeCovers(mr, head);
        InSomeCons([dest] + pushed);
        assert ([dest] + pushed)[1..] == pushed;
        forall y ensures InSome(rem + left, y) <==> InSome(rem, y) || InSome(left, y) {
          InSomeAppend(rem, left, y);
        }
      case None =>
        InSomeCons([head] + left);
        assert ([head] + left)[1..] == left;
    }
  }

  lemma {:induction false} StepBackward(mr: MapRange, sources: seq<Interval>)
    requires ValidRange(mr) && AllValid(sources)
    ensures forall y :: InSome(Step(mr, sources).0, y) ==>
      y >= mr.destination.start && InSome(sources, y - mr.destination.start + mr.source.start) &&
      Contains(mr.source, y - mr.destination.start + mr.source.start)
    ensures forall y :: InSome(Step(mr, sources).1, y) ==> InSome(sources, y) && !Contains(mr.source, y)
  {
    if sources != [] {
      var head, tail := sources[0], sources[1..];
      StepBackward(mr, tail);
      InSomeCons(sources);
      var (pushed, left) := Step(mr, tail);
      match ConvertRange(mr, head)
      case Some((dest, rem)) =>
        ConvertRangeCovers(mr, head);
        InSomeCons([dest] + pushed);
        assert ([dest] + pushed)[1..] == pushed;
        forall y | InSome(rem + left, y) ensures InSome(rem, y) || InSome(left, y) {
          InSomeAppend(rem, left, y);
        }
      case None =>
        InSomeCons([head] + left);
        assert ([head] + left)[1..] == left;
    }
  }

  /** The whole loop of `convert_ranges` over the map's ranges: the converted parts
      pushed by every step, and what is left at the end. */
  function Process(ranges: seq<MapRange>, sources: seq<Interval>): (seq<Interval>, seq<Interval>)
  {
    if ranges == [] then ([], sources)
    else
      var (pushed, left) := Step(ranges[0], sources);
      var (pushed2, left2) := Process(ranges[1..], left);
      (pushed + pushed2, left2)
  }

  /** `convert_ranges`: the converted parts followed by the parts no range covered. */
  function ConvertRanges(ranges: seq<MapRange>, sources: seq<Interval>): seq<Interval>
  {
    var (pushed, left) := Process(ranges, sources);
    pushed + left
  }

  /** The ranges `convert_ranges` returns hold exactly the converted values of the ranges
      it was given, and have the same total length. */
  lemma {:induction false} ConvertRangesSpec(ranges: seq<MapRange>, sources: seq<Interval>)
    requires forall k :: 0 <= k < |ranges| ==> ValidRange(ranges[k])
    requires AllValid(sources)
    ensures AllValid(ConvertRanges(ranges, sources))
    ensures TotalLen(ConvertRanges(ranges, sources)) == TotalLen(sources)
    ensures forall x: nat :: InSome(sources, x) ==> InSome(ConvertRanges(ranges, sources), Convert(ranges, x))
    ensures forall y: nat :: InSome(ConvertRanges(ranges, sources), y) ==>
      exists x: nat :: InSome(sources, x) && Convert(ranges, x) == y
  {
    if ranges != [] {
      var mr := ranges[0];
      var st := Step(mr, sources);
      var pushed, left := st.0, st.1;
      StepSpec(mr, sources);
      ConvertRangesSpec(ranges[1..], left);
      var pr := Process(ranges[1..], left);
      var pushed2, left2 := pr.0, pr.1;
      assert Process(ranges, sources) == (pushed + pushed2, left2);
      var out := ConvertRanges(ranges, sources);
      var out2 := ConvertRanges(ranges[1..], left);
      assert out2 == pushed2 + left2;
      assert out == pushed + out2;
      TotalLenAppend(pushed, out2);
      forall i | 0 <= i < |out| ensures ValidInterval(out[i]) {
        if i >= |pushed| { assert out[i] == out2[i - |pushed|]; }
      }
      ConvertForwardStep(ranges, sources, pushed, left, out2);
      ConvertBackwardStep(ranges, sources, pushed, left, out2);
    } else {
      assert ConvertRanges(ranges, sources) == sources;
    }
  }

  /** One step of `ConvertRangesSpec`, forwards: a value of the sources lands, converted,
      in the pushed parts or in what the later ranges make of the leftovers. */
  lemma ConvertForwardStep(ranges: seq<MapRange>, sources: seq<Interval>,
                           pushed: seq<Interval>, left: seq<Interval>, out2: seq<Interval>)
    requires ranges != []
    requires forall x: nat :: InSome(sources, x) && Contains(ranges[0].source, x) ==>
      InSome(pushed, Shift(ranges[0], x))
    requires forall x: nat :: InSome(sources, x) && !Contains(ranges[0].source, x) ==> InSome(left, x)
    requires forall x: nat :: InSome(left, x) ==> InSome(out2, Convert(ranges[1..], x))
    ensures forall x: nat :: InSome(sources, x) ==> InSome(pushed + out2, Convert(ranges, x))
  {
    forall x: nat | InSome(sources, x) ensures InSome(pushed + out2, Convert(ranges, x)) {
      InSomeAppend(pushed, out2, Convert(ranges, x));
    }
  }

  /** One step of `ConvertRangesSpec`, backwards: every value of the output comes from a
      value of the sources. */
  lemma ConvertBackwardStep(ranges: seq<MapRange>, sources: seq<Interval>,
                            pushed: seq<Interval>, left: seq<Interval>, out2: seq<Interval>)
    requires ranges != []
    requires forall y :: InSome(pushed, y) ==>
      y >= ranges[0].destination.start &&
      InSome(sources, y - ranges[0].destination.start + ranges[0].source.start) &&
      Contains(ranges[0].source, y - ranges[0].destination.start + ranges[0].source.start)
    requires forall y :: InSome(left, y) ==> InSome(sources, y) && !Contains(ranges[0].source, y)
    requires forall y: nat :: InSome(out2, y) ==> exists x: nat :: InSome(left, x) && Convert(ranges[1..], x) == y
    ensures forall y: nat :: InSome(pushed + out2, y) ==>
      exists x: nat :: InSome(sources, x) && Convert(ranges, x) == y
  {
    var mr := ranges[0];
    forall y: nat | InSome(pushed + out2, y) ensures exists x: nat :: InSome(sources, x) && Convert(ranges, x) == y {
      InSomeAppend(pushed, out2, y);
      if InSome(pushed, y) {
        var x: nat := y - mr.destination.start + mr.source.start;
        assert InSome(sources, x) && Convert(ranges, x) == y;
      } else {
        var x: nat :| InSome(left, x) && Convert(ranges[1..], x) == y;
        assert InSome(sources, x) && Convert(ranges, x) == y;
      }
    }
  }

  /** `Map::convert_ranges` itself: `source_ranges` is rebuilt by every map range and the
      converted parts are pushed onto `destination_ranges`. */
  method ConvertRangesLoop(m: Map, sources: seq<Interval>) returns (result: seq<Interval>)
    ensures result == ConvertRanges(m.ranges, sources)
  {
    var destination: seq<Interval> := [];
    var current := sources;
    var k := 0;
    while k < |m.ranges|
      invariant 0 <= k <= |m.ranges|
      invariant destination + Process(m.ranges[k..], current).0 == Process(m.ranges, sources).0
      invariant Process(m.ranges[k..], current).1 == Process(m.ranges, sources).1
    {
      var (pushed, left) := Step(m.ranges[k], current);
      assert m.ranges[k..][1..] == m.ranges[k + 1..];
      destination := destination + pushed;
      current := left;
      k := k + 1;
    }
    result := destination + current;
  }

  /** A seed range through every map in turn. */
  function Through(maps: seq<Map>, sources: seq<Interval>): seq<Interval>
  {
    if maps == [] then sources else Through(maps[1..], ConvertRanges(maps[0].ranges, sources))
  }

  /** Through all the maps, the ranges hold exactly the locations of their seeds. */
  lemma {:induction false} ThroughSpec(maps: seq<Map>, sources: seq<Interval>)
    requires forall i :: 0 <= i < |maps| ==> ValidMap(maps[i])
    requires AllValid(sources)
    ensures AllValid(Through(maps, sources))
    ensures TotalLen(Through(maps, sources)) == TotalLen(sources)
    ensures forall x: nat :: InSome(sources, x) ==> InSome(Through(maps, sources), Location(maps, x))
    ensures forall y: nat :: InSome(Through(maps, sources), y) ==>
      exists x: nat :: InSome(sources, x) && Location(maps, x) == y
  {
    if maps != [] {
      var next := ConvertRanges(maps[0].ranges, sources);
      ConvertRangesSpec(maps[0].ranges, sources);
      ThroughSpec(maps[1..], next);
      forall y: nat | InSome(Through(maps, sources), y)
        ensures exists x: nat :: InSome(sources, x) && Location(maps, x) == y
      {
        var z: nat :| InSome(next, z) && Location(maps[1..], z) == y;
        var x: nat :| InSome(sources, x) && Convert(maps[0].ranges, x) == z;
        assert Location(maps, x) == y;
      }
    }
  }

  /** The answer for one seed range as written: the lowest start of the ranges that come
      out, empty ranges included. */
  function MinStartAsWritten(rs: seq<Interval>): (r: Option<nat>)
    ensures r.None? <==> rs == []
  {
    if rs == [] then None
    else match MinStartAsWritten(rs[1..])
      case None => Some(rs[0].start)
      case Some(m) => Some(if rs[0].start <= m then rs[0].start else m)
  }

  /** A map line of length zero inside a seed range makes `convert_range` push an empty
      range whose start is no location at all; here it is the lowest start. */
  lemma EmptyMapRangeSkewsMinimum()
    ensures var maps := [Map("a", [MapRange(Interval(0, 0), Interval(10, 10))])];
      MinStartAsWritten(Through(maps, [Interval(5, 15)])) == Some(0) &&
      forall x: nat :: Contains(Interval(5, 15), x) ==> Location(maps, x) >= 5
  {
    var mr := MapRange(Interval(0, 0), Interval(10, 10));
    var maps := [Map("a", [mr])];
    assert ConvertRange(mr, Interval(5, 15)) == Some((Interval(0, 0), [Interval(5, 10), Interval(10, 15)]));
    assert Step(mr, []) == ([], []);
    assert [Interval(5, 15)][1..] == [];
    assert [Interval(0, 0)] + [] == [Interval(0, 0)];
    assert [Interval(5, 10), Interval(10, 15)] + [] == [Interval(5, 10), Interval(10, 15)];
    assert Step(mr, [Interval(5, 15)]) == ([Interval(0, 0)], [Interval(5, 10), Interval(10, 15)]);
    assert Process([mr], [Interval(5, 15)]) == ([Interval(0, 0)], [Interval(5, 10), Interval(10, 15)]);
    assert Through(maps, [Interval(5, 15)]) == [Interval(0, 0), Interval(5, 10), Interval(10, 15)];
    forall x: nat | Contains(Interval(5, 15), x) ensures Location(maps, x) >= 5 {
      assert Convert([mr], x) == x;
    }
  }

  /** The answer for one seed range, corrected: the lowest start among the ranges that
      hold a value. */
  function MinStart(rs: seq<Interval>): (r: Option<nat>)
    ensures r.None? <==> forall i :: 0 <= i < |rs| ==> rs[i].start >= rs[i].end
    ensures r.Some? ==> exists i :: 0 <= i < |rs| && rs[i].start < rs[i].end && rs[i].start == r.value
    ensures r.Some? ==> forall i :: 0 <= i < |rs| && rs[i].start < rs[i].end ==> r.value <= rs[i].start
  {
    if rs == [] then None
    else
      var rest := MinStart(rs[1..]);
      assert forall i :: 1 <= i < |rs| ==> rs[i] == rs[1..][i - 1];
      if rs[0].start >= rs[0].end then
        rest
      else match rest
        case None => Some(rs[0].start)
        case Some(m) => Some(if rs[0].start <= m then rs[0].start else m)
  }

  /** With the correction the answer for a seed range is the lowest location of its
      seeds: one of them reaches it and none goes lower. */
  lemma SeedRangeMinimum(maps: seq<Map>, seeds: Interval)
    requires forall i :: 0 <= i < |maps| ==> ValidMap(maps[i])
    requires ValidInterval(seeds)
    ensures MinStart(Through(maps, [seeds])).Some? <==> seeds.start < seeds.end
    ensures MinStart(Through(maps, [seeds])).Some? ==>
      (exists x: nat :: Contains(seeds, x) && Location(maps, x) == MinStart(Through(maps, [seeds])).value) &&
      (forall x: nat :: Contains(seeds, x) ==> MinStart(Through(maps, [seeds])).value <= Location(maps, x))
  {
    var out := Through(maps, [seeds]);
    SeedRangeThrough(maps, seeds);
    if seeds.start < seeds.end {
      MinStartAtMost(out, Location(maps, seeds.start));
    }
    if MinStart(out).Some? {
      MinStartHeld(out);
      forall x: nat | Contains(seeds, x) ensures MinStart(out).value <= Location(maps, x) {
        MinStartAtMost(out, Location(maps, x));
      }
    }
  }

  /** A value held by some range bounds the lowest start from above. */
  lemma MinStartAtMost(rs: seq<Interval>, y: int)
    requires InSome(rs, y)
    ensures MinStart(rs).Some? && MinStart(rs).value <= y
  {
    var i :| 0 <= i < |rs| && Contains(rs[i], y);
  }

  /** The lowest start is itself held by a range. */
  lemma MinStartHeld(rs: seq<Interval>)
    requires MinStart(rs).Some?
    ensures InSome(rs, MinStart(rs).value)
  {
    var i :| 0 <= i < |rs| && rs[i].start < rs[i].end && rs[i].start == MinStart(rs).value;
    assert Contains(rs[i], MinStart(rs).value);
  }

  /** The ranges that come out of one seed range hold exactly the locations of its seeds. */
  lemma SeedRangeThrough(maps: seq<Map>, seeds: Interval)
    requires forall i :: 0 <= i < |maps| ==> ValidMap(maps[i])
    requires ValidInterval(seeds)
    ensures forall x: nat :: Contains(seeds, x) ==> InSome(Through(maps, [seeds]), Location(maps, x))
    ensures forall y: nat :: InSome(Through(maps, [seeds]), y) ==>
      exists x: nat :: Contains(seeds, x) && Location(maps, x) == y
  {
    ThroughSpec(maps, [seeds]);
    forall x: nat ensures InSome([seeds], x) <==> Contains(seeds, x) {
      if Contains(seeds, x) { assert Contains([seeds][0], x); }
    }
  }

  function MinOverSeedRanges(maps: seq<Map>, seeds: seq<Interval>): Option<nat>
  {
    if seeds == [] then None
    else match (MinStart(Through(maps, [seeds[0]])), MinOverSeedRanges(maps, seeds[1..]))
      case (Some(a), Some(b)) => Some(if a <= b then a else b)
      case (Some(a), None) => Some(a)
      case (None, b) => b
  }

  /** Over several seed ranges, the answer is the location of one of their seeds and no
      seed of any range has a lower location; there is none exactly when every range is
      empty. */
  lemma {:induction false} MinOverSeedRangesSpec(maps: seq<Map>, seeds: seq<Interval>)
    requires forall i :: 0 <= i < |maps| ==> ValidMap(maps[i])
    requires AllValid(seeds)
    ensures MinOverSeedRanges(maps, seeds).None? <==> forall k :: 0 <= k < |seeds| ==> seeds[k].start >= seeds[k].end
    ensures MinOverSeedRanges(maps, seeds).Some? ==>
      exists k, x: nat :: 0 <= k < |seeds| && Contains(seeds[k], x) && Location(maps, x) == MinOverSeedRanges(maps, seeds).value
    ensures MinOverSeedRanges(maps, seeds).Some? ==>
      forall k, x: nat :: 0 <= k < |seeds| && Contains(seeds[k], x) ==> MinOverSeedRanges(maps, seeds).value <= Location(maps, x)
    decreases |seeds|
  {
    if seeds != [] {
      var rest := seeds[1..];
      assert forall k :: 1 <= k < |seeds| ==> seeds[k] == rest[k - 1];
      SeedRangeMinimum(maps, seeds[0]);
      MinOverSeedRangesSpec(maps, rest);
    }
  }

  /** Part 2, corrected: the lowest location over all seed ranges. */
  function SolvePart2(input: string): (r: Option<nat>)
    ensures r.Some? ==> SeedTokens(Lines(input)).Some?
  {
    var lines := Lines(input);
    match SeedTokens(lines)
    case None => None
    case Some(tokens) =>
      var maps := ParseMaps(if |lines| >= 2 then lines[2..] else []);
      MinOverSeedRanges(maps, SeedRanges(tokens))
  }

  /** The part 2 answer is the lowest location of any seed of the input's seed ranges, and
      there is one exactly when some range holds a seed. */
  lemma SolvePart2Minimum(input: string)
    requires SeedTokens(Lines(input)).Some?
    ensures var lines := Lines(input);
      var seeds := SeedRanges(SeedTokens(lines).value);
      var maps := ParseMaps(if |lines| >= 2 then lines[2..] else []);
      var r := SolvePart2(input);
      (r.None? <==> forall k :: 0 <= k < |seeds| ==> seeds[k].start >= seeds[k].end) &&
      (r.Some? ==> exists k, x: nat :: 0 <= k < |seeds| && Contains(seeds[k], x) && Location(maps, x) == r.value) &&
      (r.Some? ==> forall k, x: nat :: 0 <= k < |seeds| && Contains(seeds[k], x) ==> r.value <= Location(maps, x))
  {
    var lines := Lines(input);
    MinOverSeedRangesSpec(ParseMaps(if |lines| >= 2 then lines[2..] else []), SeedRanges(SeedTokens(lines).value));
  }
}
