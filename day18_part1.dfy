/** Day 18, part 1: the lagoon dug along a dig plan. Each line of the plan moves the digger
    a distance in a direction and records a trench ending where it stops; the cubic metres
    the lagoon holds come from the shoelace formula over the trench ends, corrected by half
    the perimeter plus one because the trenches are a metre wide. */
module Day18Part1 {
  import opened Text

  datatype Position = Position(x: int, y: int)

  /** A dug trench: where it ends and how many metres long it is. */
  datatype Trench = Trench(end: Position, length: nat)

  /** How a plan line is read: a direction letter and a distance. */
  type Decoder = string -> Option<(char, nat)>

  const Origin := Position(0, 0)

  function Abs(n: int): nat
  {
    if n < 0 then -n else n
  }

  /** `distance` metres on from `p` towards `direction`: 'U' raises y, 'D' lowers it, 'L'
      lowers x and 'R' raises it; any other letter is unknown and panics. */
  function Moved(p: Position, direction: char, distance: nat): (q: Option<Position>)
    ensures q.Some? <==> direction in "UDLR"
    ensures q.Some? ==> q.value.x == p.x || q.value.y == p.y
    ensures q.Some? ==> Abs(q.value.x - p.x) + Abs(q.value.y - p.y) == distance
  {
    match direction
    case 'U' => Some(Position(p.x, p.y + distance))
    case 'D' => Some(Position(p.x, p.y - distance))
    case 'L' => Some(Position(p.x - distance, p.y))
    case 'R' => Some(Position(p.x + distance, p.y))
    case _ => None
  }

  function Opposite(direction: char): char
  {
    match direction
    case 'U' => 'D'
    case 'D' => 'U'
    case 'L' => 'R'
    case _ => 'L'
  }

  /** Digging back the same distance the opposite way returns to where the move began. */
  lemma MovedBack(p: Position, direction: char, distance: nat)
    requires direction in "UDLR"
    ensures Moved(p, direction, distance).Some?
    ensures Moved(Moved(p, direction, distance).value, Opposite(direction), distance) == Some(p)
  {
  }

  function Plus(p: Position, v: Position): Position
  {
    Position(p.x + v.x, p.y + v.y)
  }

  /** A move does not depend on where it starts: moving from a shifted position lands on
      the shifted end. */
  lemma MovedShift(p: Position, v: Position, direction: char, distance: nat)
    ensures Moved(Plus(p, v), direction, distance).Some? <==> Moved(p, direction, distance).Some?
    ensures Moved(p, direction, distance).Some? ==>
      Moved(Plus(p, v), direction, distance).value == Plus(Moved(p, direction, distance).value, v)
  {
  }

  /** A plan line of part 1: the direction is its first character and the distance the
      `u32` up to the first space after its third byte. A line shorter than two bytes, with
      no such space, or with a distance that is no `u32` panics. */
  function ParseLine(line: string): (r: Option<(char, nat)>)
    ensures r.Some? ==> |line| >= 2 && r.value.0 == line[0] && r.value.1 < 0x1_0000_0000
  {
    if |line| < 2 then None
    else
      match SplitOnce(line[2..], " ")
      case None => None
      case Some((distance, _)) =>
        match ParseNat(distance)
        case None => None
        case Some(d) => if d < 0x1_0000_0000 then Some((line[0], d)) else None
  }

  /** A plan line in the puzzle's format: direction, distance and a colour part 1 ignores. */
  function PlanLine(direction: char, distance: nat, colour: string): string
  {
    [direction, ' '] + NatToString(distance) + " " + colour
  }

  /** The plan line "D 6 (#...)" reads as the direction and the distance written in it. */
  lemma ParseLineOfFormat(direction: char, distance: nat, colour: string)
    requires distance < 0x1_0000_0000
    ensures ParseLine(PlanLine(direction, distance, colour)) == Some((direction, distance))
  {
    var line := PlanLine(direction, distance, colour);
    assert line[2..] == NatToString(distance) + " " + colour;
    SplitOnceOfJoined(NatToString(distance), " ", colour);
    ParseNatOfNatToString(distance);
  }

  /** `Trench::create`: the digger moves from `p` as the line says; the trench ends where
      it stops and is as long as the distance. */
  function Create(decode: Decoder, p: Position, line: string): (r: Option<(Position, Trench)>)
    ensures r.Some? ==> decode(line).Some? && r.value.1 == Trench(r.value.0, decode(line).value.1)
    ensures r.Some? ==> Moved(p, decode(line).value.0, decode(line).value.1) == Some(r.value.0)
    ensures r.None? <==> decode(line).None? || decode(line).value.0 !in "UDLR"
  {
    match decode(line)
    case None => None
    case Some((direction, distance)) =>
      match Moved(p, direction, distance)
      case None => None
      case Some(q) => Some((q, Trench(q, distance)))
  }

  /** Where the digger stands before the `i`-th line of a plan that starts at `p`. */
  function Before(p: Position, trenches: seq<Trench>, i: nat): Position
    requires i <= |trenches|
  {
    if i == 0 then p else trenches[i - 1].end
  }

  /** The trenches of the `scan` over the plan, starting at `p`; none when a line panics. */
  function DigFrom(decode: Decoder, p: Position, lines: seq<string>): (r: Option<seq<Trench>>)
    ensures r.Some? ==> |r.value| == |lines|
    decreases |lines|
  {
    if lines == [] then Some([])
    else
      match Create(decode, p, lines[0])
      case None => None
      case Some((q, trench)) =>
        match DigFrom(decode, q, lines[1..])
        case None => None
        case Some(rest) => Some([trench] + rest)
  }

  /** Each line's trench starts where the one before ended, records where the digger stops
      and is as long as the line's distance; the plan panics exactly when some line does,
      counting from where the line before left the digger. */
  lemma {:induction false} DigSteps(decode: Decoder, p: Position, lines: seq<string>)
    ensures DigFrom(decode, p, lines).Some? ==> forall i :: 0 <= i < |lines| ==>
      Create(decode, Before(p, DigFrom(decode, p, lines).value, i), lines[i])
        == Some((DigFrom(decode, p, lines).value[i].end, DigFrom(decode, p, lines).value[i]))
    decreases |lines|
  {
    if lines != [] && Create(decode, p, lines[0]).Some? {
      var (q, trench) := Create(decode, p, lines[0]).value;
      DigSteps(decode, q, lines[1..]);
      var rest := DigFrom(decode, q, lines[1..]);
      if rest.Some? {
        var all := [trench] + rest.value;
        assert forall i :: 1 <= i < |lines| ==> Before(p, all, i) == Before(q, rest.value, i - 1);
      }
    }
  }

  /** `trenches` in front of an outcome that may have panicked. */
  function Then(trenches: seq<Trench>, rest: Option<seq<Trench>>): Option<seq<Trench>>
  {
    if rest.None? then None else Some(trenches + rest.value)
  }

  /** The scan of `solve`: the digger's position is updated line by line and each line's
      trench is collected. */
  method Dig(decode: Decoder, lines: seq<string>) returns (r: Option<seq<Trench>>)
    ensures r == DigFrom(decode, Origin, lines)
  {
    var position := Origin;
    var trenches := [];
    var i := 0;
    assert lines[i..] == lines;
    ghost var whole := DigFrom(decode, Origin, lines);
    if whole.Some? {
      assert trenches + whole.value == whole.value;
    }
    while i < |lines|
      invariant i <= |lines|
      invariant Then(trenches, DigFrom(decode, position, lines[i..])) == DigFrom(decode, Origin, lines)
    {
      assert lines[i..][0] == lines[i] && lines[i..][1..] == lines[i + 1..];
      var created := Create(decode, position, lines[i]);
      if created.None? {
        return None;
      }
      var trench := created.value.1;
      position := created.value.0;
      ghost var rest := DigFrom(decode, position, lines[i + 1..]);
      if rest.Some? {
        assert trenches + [trench] + rest.value == trenches + ([trench] + rest.value);
      }
      trenches := trenches + [trench];
      i := i + 1;
    }
    assert lines[i..] == [] && trenches + [] == trenches;
    return Some(trenches);
  }

  /** The circular windows of `circular_tuple_windows`: each trench with the one after it,
      and the last with the first. */
  function Windows(ts: seq<Trench>): (ws: seq<(Trench, Trench)>)
    ensures |ws| == |ts|
    ensures forall i {:trigger ws[i]} :: 0 <= i < |ts| ==> ws[i] == (ts[i], ts[(i + 1) % |ts|])
  {
    seq(|ts|, i requires 0 <= i < |ts| => (ts[i], ts[(i + 1) % |ts|]))
  }

  /** The fold of `solve` over the windows: the running perimeter and the two shoelace sums. */
  function Fold(ws: seq<(Trench, Trench)>, acc: (int, int, int)): (int, int, int)
  {
    if ws == [] then acc
    else
      var (current, next) := ws[0];
      Fold(ws[1..], (acc.0 + current.length, acc.1 + current.end.x * next.end.y,
        acc.2 + current.end.y * next.end.x))
  }

  function Det(a: Position, b: Position): int
  {
    a.x * b.y - a.y * b.x
  }

  /** Twice the signed area swept by the windows: the shoelace sum of their cross products. */
  function Cross(ws: seq<(Trench, Trench)>): int
  {
    if ws == [] then 0 else Det(ws[0].0.end, ws[0].1.end) + Cross(ws[1..])
  }

  /** The lengths of the first trench of every window: the perimeter. */
  function Lengths(ws: seq<(Trench, Trench)>): nat
  {
    if ws == [] then 0 else ws[0].0.length + Lengths(ws[1..])
  }

  /** The fold adds every length to the perimeter, and the difference of its two sums grows
      by every cross product. */
  lemma {:induction false} FoldSums(ws: seq<(Trench, Trench)>, acc: (int, int, int))
    ensures Fold(ws, acc).0 == acc.0 + Lengths(ws)
    ensures Fold(ws, acc).1 - Fold(ws, acc).2 == acc.1 - acc.2 + Cross(ws)
  {
    if ws != [] {
      var (current, next) := ws[0];
      FoldSums(ws[1..], (acc.0 + current.length, acc.1 + current.end.x * next.end.y,
        acc.2 + current.end.y * next.end.x));
    }
  }

  /** The cubic metres of the lagoon: one plus half of the shoelace area's double and the
      perimeter together, that is the interior points and the boundary by Pick's theorem. */
  function Lagoon(ts: seq<Trench>): (n: nat)
    ensures n == 1 + (Abs(Cross(Windows(ts))) + Lengths(Windows(ts))) / 2
  {
    var sums := Fold(Windows(ts), (0, 0, 0));
    FoldSums(Windows(ts), (0, 0, 0));
    1 + (Abs(sums.1 - sums.2) + sums.0) / 2
  }

  /** The trenches moved by `v`. */
  function Shift(ts: seq<Trench>, v: Position): (r: seq<Trench>)
    ensures |r| == |ts|
    ensures forall i :: 0 <= i < |ts| ==> r[i] == Trench(Plus(ts[i].end, v), ts[i].length)
  {
    seq(|ts|, i requires 0 <= i < |ts| => Trench(Plus(ts[i].end, v), ts[i].length))
  }

  function ShiftPairs(ws: seq<(Trench, Trench)>, v: Position): (r: seq<(Trench, Trench)>)
    ensures |r| == |ws|
  {
    if ws == [] then []
    else
      [(Trench(Plus(ws[0].0.end, v), ws[0].0.length), Trench(Plus(ws[0].1.end, v), ws[0].1.length))]
      + ShiftPairs(ws[1..], v)
  }

  /** Digging from a shifted start digs the shifted trenches, and panics exactly as often. */
  lemma {:induction false} DigShift(decode: Decoder, p: Position, v: Position, lines: seq<string>)
    ensures DigFrom(decode, Plus(p, v), lines).Some? <==> DigFrom(decode, p, lines).Some?
    ensures DigFrom(decode, p, lines).Some? ==>
      DigFrom(decode, Plus(p, v), lines).value == Shift(DigFrom(decode, p, lines).value, v)
    decreases |lines|
  {
    if lines != [] {
      match decode(lines[0])
      case None =>
      case Some((direction, distance)) =>
        MovedShift(p, v, direction, distance);
        if Moved(p, direction, distance).Some? {
          var q := Moved(p, direction, distance).value;
          DigShift(decode, q, v, lines[1..]);
        }
    }
  }

  function X(p: Position): int
  {
    p.x
  }

  function Y(p: Position): int
  {
    p.y
  }

  /** The change of `f` summed over the windows. */
  function Rise(ws: seq<(Trench, Trench)>, f: Position -> int): int
  {
    if ws == [] then 0 else f(ws[0].1.end) - f(ws[0].0.end) + Rise(ws[1..], f)
  }

  /** Over windows that chain, the changes telescope to the change from first to last. */
  lemma {:induction false} Telescope(ws: seq<(Trench, Trench)>, f: Position -> int)
    requires |ws| > 0 && forall i :: 0 <= i < |ws| - 1 ==> ws[i].1 == ws[i + 1].0
    ensures Rise(ws, f) == f(ws[|ws| - 1].1.end) - f(ws[0].0.end)
  {
    if |ws| > 1 {
      assert forall i :: 0 <= i < |ws[1..]| - 1 ==> ws[1..][i].1 == ws[1..][i + 1].0 by {
        forall i | 0 <= i < |ws[1..]| - 1
          ensures ws[1..][i].1 == ws[1..][i + 1].0
        {
          assert ws[1..][i] == ws[i + 1] && ws[1..][i + 1] == ws[i + 2];
        }
      }
      Telescope(ws[1..], f);
    }
  }

  /** Around the closed loop of windows nothing changes in total. */
  lemma Circular(ts: seq<Trench>, f: Position -> int)
    ensures Rise(Windows(ts), f) == 0
  {
    var ws := Windows(ts);
    if ws != [] {
      forall i | 0 <= i < |ws| - 1
        ensures ws[i].1 == ws[i + 1].0
      {
        assert (i + 1) % |ts| == i + 1;
      }
      Telescope(ws, f);
    }
  }

  lemma DetShift(a: Position, b: Position, v: Position)
    ensures Det(Plus(a, v), Plus(b, v)) == Det(a, b) + v.x * (b.y - a.y) - v.y * (b.x - a.x)
  {
    assert (a.x + v.x) * (b.y + v.y) == a.x * b.y + a.x * v.y + v.x * b.y + v.x * v.y;
    assert (a.y + v.y) * (b.x + v.x) == a.y * b.x + a.y * v.x + v.y * b.x + v.y * v.x;
  }

  /** Shifting moves each cross product by the shift against the window's change. */
  lemma {:induction false} CrossShift(ws: seq<(Trench, Trench)>, v: Position)
    ensures Cross(ShiftPairs(ws, v)) == Cross(ws) + v.x * Rise(ws, Y) - v.y * Rise(ws, X)
    ensures Lengths(ShiftPairs(ws, v)) == Lengths(ws)
  {
    if ws != [] {
      CrossShift(ws[1..], v);
      var a, b := ws[0].0.end, ws[0].1.end;
      DetShift(a, b, v);
      var ry, rx := Rise(ws[1..], Y), Rise(ws[1..], X);
      assert v.x * (b.y - a.y + ry) == v.x * (b.y - a.y) + v.x * ry;
      assert v.y * (b.x - a.x + rx) == v.y * (b.x - a.x) + v.y * rx;
    }
  }

  /** The lagoon does not depend on where the trenches lie, only on their shape. */
  lemma LagoonShift(ts: seq<Trench>, v: Position)
    ensures Lagoon(Shift(ts, v)) == Lagoon(ts)
  {
    var ws := Windows(ts);
    assert Windows(Shift(ts, v)) == ShiftPairs(ws, v) by {
      ShiftPairsAt(ws, v);
    }
    CrossShift(ws, v);
    Circular(ts, Y);
    Circular(ts, X);
  }

  lemma {:induction false} ShiftPairsAt(ws: seq<(Trench, Trench)>, v: Position)
    ensures forall i :: 0 <= i < |ws| ==>
      ShiftPairs(ws, v)[i] ==
        (Trench(Plus(ws[i].0.end, v), ws[i].0.length), Trench(Plus(ws[i].1.end, v), ws[i].1.length))
  {
    if ws != [] {
      ShiftPairsAt(ws[1..], v);
    }
  }

  /** Where the digging starts does not change the lagoon. */
  lemma StartAnywhere(decode: Decoder, p: Position, lines: seq<string>)
    ensures DigFrom(decode, p, lines).Some? <==> DigFrom(decode, Origin, lines).Some?
    ensures DigFrom(decode, p, lines).Some? ==>
      Lagoon(DigFrom(decode, p, lines).value) == Lagoon(DigFrom(decode, Origin, lines).value)
  {
    assert Plus(Origin, p) == p;
    DigShift(decode, Origin, p, lines);
    if DigFrom(decode, Origin, lines).Some? {
      LagoonShift(DigFrom(decode, Origin, lines).value, p);
    }
  }


  const Paint := "(#70c710)"

  /** The rectangle plan: right, down, left and up around a `w` by `h` loop. */
  function Rectangle(w: nat, h: nat): seq<string>
  {
    [PlanLine('R', w, Paint), PlanLine('D', h, Paint), PlanLine('L', w, Paint), PlanLine('U', h, Paint)]
  }

  /** One more line in front of a plan that digs without panicking. */
  lemma DigCons(decode: Decoder, p: Position, lines: seq<string>, q: Position, t: Trench, rest: seq<Trench>)
    requires lines != [] && Create(decode, p, lines[0]) == Some((q, t))
    requires DigFrom(decode, q, lines[1..]) == Some(rest)
    ensures DigFrom(decode, p, lines) == Some([t] + rest)
  {
  }

  /** The corners of the `w` by `h` rectangle, clockwise from the top-right. */
  function Corners(w: nat, h: nat): seq<Position>
  {
    [Position(w, 0), Position(w, -(h as int)), Position(0, -(h as int)), Origin]
  }

  /** Four lines that read as right `w`, down `h`, left `w` and up `h`, dug from the origin,
      end their trenches at the corners of the rectangle. */
  lemma RectangleDug(decode: Decoder, lines: seq<string>, w: nat, h: nat)
    requires |lines| == 4
    requires decode(lines[0]) == Some(('R', w)) && decode(lines[1]) == Some(('D', h))
    requires decode(lines[2]) == Some(('L', w)) && decode(lines[3]) == Some(('U', h))
    ensures DigFrom(decode, Origin, lines) == Some([Trench(Corners(w, h)[0], w),
      Trench(Corners(w, h)[1], h), Trench(Corners(w, h)[2], w), Trench(Corners(w, h)[3], h)])
  {
    var k := Corners(w, h);
    var t0, t1, t2, t3 := Trench(k[0], w), Trench(k[1], h), Trench(k[2], w), Trench(k[3], h);
    assert Create(decode, Origin, lines[0]) == Some((k[0], t0));
    assert Create(decode, k[0], lines[1]) == Some((k[1], t1));
    assert Create(decode, k[1], lines[2]) == Some((k[2], t2));
    assert Create(decode, k[2], lines[3]) == Some((k[3], t3));
    assert lines[3..][1..] == [] && lines[3..][0] == lines[3];
    DigCons(decode, k[2], lines[3..], k[3], t3, []);
    assert [t3] + [] == [t3];
    assert lines[2..][1..] == lines[3..] && lines[2..][0] == lines[2];
    DigCons(decode, k[1], lines[2..], k[2], t2, [t3]);
    assert lines[1..][1..] == lines[2..] && lines[1..][0] == lines[1];
    assert [t2] + [t3] == [t2, t3];
    DigCons(decode, k[0], lines[1..], k[1], t1, [t2, t3]);
    assert [t1] + [t2, t3] == [t1, t2, t3];
    DigCons(decode, Origin, lines, k[0], t0, [t1, t2, t3]);
    assert [t0] + [t1, t2, t3] == [t0, t1, t2, t3];
  }

  /** A rectangular loop `w` by `h` metres between trench centres holds `(w + 1) * (h + 1)`
      cubic metres: the trench itself is a metre wide. */
  lemma RectangleLagoon(w: nat, h: nat)
    requires w < 0x1_0000_0000 && h < 0x1_0000_0000
    ensures DigFrom(ParseLine, Origin, Rectangle(w, h)).Some?
    ensures Lagoon(DigFrom(ParseLine, Origin, Rectangle(w, h)).value) == (w + 1) * (h + 1)
  {
    ParseLineOfFormat('R', w, Paint);
    ParseLineOfFormat('D', h, Paint);
    ParseLineOfFormat('L', w, Paint);
    ParseLineOfFormat('U', h, Paint);
    RectangleDug(ParseLine, Rectangle(w, h), w, h);
    var k := Corners(w, h);
    var ts := [Trench(k[0], w), Trench(k[1], h), Trench(k[2], w), Trench(k[3], h)];
    RectangleArea(w, h, ts);
  }

  /** The shoelace sums of four windows. */
  lemma Sums4(ws: seq<(Trench, Trench)>)
    requires |ws| == 4
    ensures Cross(ws) == Det(ws[0].0.end, ws[0].1.end) + Det(ws[1].0.end, ws[1].1.end)
      + Det(ws[2].0.end, ws[2].1.end) + Det(ws[3].0.end, ws[3].1.end)
    ensures Lengths(ws) == ws[0].0.length + ws[1].0.length + ws[2].0.length + ws[3].0.length
  {
    assert ws[1..][1..] == ws[2..] && ws[2..][1..] == ws[3..] && ws[3..][1..] == [];
    assert ws[1..][0] == ws[1] && ws[2..][0] == ws[2] && ws[3..][0] == ws[3];
    assert Cross(ws[3..]) == Det(ws[3].0.end, ws[3].1.end) && Lengths(ws[3..]) == ws[3].0.length;
  }

  /** The lagoon of a loop of four trenches. */
  lemma Lagoon4(ts: seq<Trench>)
    requires |ts| == 4
    ensures Lagoon(ts) == 1 + (Abs(Det(ts[0].end, ts[1].end) + Det(ts[1].end, ts[2].end)
      + Det(ts[2].end, ts[3].end) + Det(ts[3].end, ts[0].end))
      + (ts[0].length + ts[1].length + ts[2].length + ts[3].length)) / 2
  {
    var ws := Windows(ts);
    assert ws[0] == (ts[0], ts[1]) && ws[1] == (ts[1], ts[2]) && ws[2] == (ts[2], ts[3]);
    assert ws[3] == (ts[3], ts[0]) by {
      assert ws[3] == (ts[3], ts[(3 + 1) % 4]);
    }
    Sums4(ws);
  }

  lemma RectangleArea(w: nat, h: nat, ts: seq<Trench>)
    requires ts == [Trench(Corners(w, h)[0], w), Trench(Corners(w, h)[1], h),
      Trench(Corners(w, h)[2], w), Trench(Corners(w, h)[3], h)]
    ensures Lagoon(ts) == (w + 1) * (h + 1)
  {
    Lagoon4(ts);
    CornerSums(w, h);
  }

  /** The shoelace arithmetic of the rectangle's corners. */
  lemma CornerSums(w: nat, h: nat)
    ensures var k := Corners(w, h);
      Det(k[0], k[1]) + Det(k[1], k[2]) + Det(k[2], k[3]) + Det(k[3], k[0]) == -2 * (w * h)
    ensures 1 + (Abs(-2 * (w * h)) + (w + h + w + h)) / 2 == (w + 1) * (h + 1)
  {
    var below := -(h as int);
    assert w * below == -(w * h);
    assert (w + 1) * (h + 1) == w * h + w + h + 1;
  }

  /** `solve`: the lagoon dug along the plan, or none when a line panics. */
  method Solve(input: string) returns (r: Option<nat>)
    ensures r.None? <==> DigFrom(ParseLine, Origin, Lines(input)).None?
    ensures r.Some? ==> r.value == Lagoon(DigFrom(ParseLine, Origin, Lines(input)).value)
  {
    var trenches := Dig(ParseLine, Lines(input));
    if trenches.None? {
      return None;
    }
    return Some(Lagoon(trenches.value));
  }
}
