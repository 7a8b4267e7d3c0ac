/** Day 16, part 1: a beam of light enters the contraption at the top left corner heading
    right; mirrors turn it, splitters split it, and the answer is the number of tiles some
    beam passes through. The beams are explored breadth first, each (direction, position)
    pair at most once. */
module Day16Part1 {
  import opened Text

  datatype Tile = Empty | NEMirror | NWMirror | HSplitter | VSplitter

  datatype Direction = Right | Left | Up | Down

  /** A beam: where it is, `(row, column)`, and where it heads. */
  datatype Beam = Beam(direction: Direction, position: (nat, nat))

  /** `Tile::try_from`: the five tile bytes; any other byte has no tile. */
  function TileOf(c: char): (t: Option<Tile>)
    ensures t.Some? <==> c in {'.', '/', '\\', '-', '|'}
  {
    match c
    case '.' => Some(Empty)
    case '/' => Some(NEMirror)
    case '\\' => Some(NWMirror)
    case '-' => Some(HSplitter)
    case '|' => Some(VSplitter)
    case _ => None
  }

  predicate InGrid(b: Beam, rows: nat, cols: nat)
  {
    b.position.0 < rows && b.position.1 < cols
  }

  /** The cell one step from `p` toward `d`, as integers. */
  function Ahead(p: (nat, nat), d: Direction): (int, int)
  {
    match d
    case Right => (p.0, p.1 + 1)
    case Left => (p.0, p.1 - 1)
    case Up => (p.0 - 1, p.1)
    case Down => (p.0 + 1, p.1)
  }

  /** `Beam::next`: the beam one cell further on, or none when that step leaves the grid. */
  function Next(b: Beam, rows: nat, cols: nat): (r: Option<Beam>)
    ensures r.Some? ==> r.value.direction == b.direction
    ensures r.Some? ==> r.value.position == Ahead(b.position, b.direction)
    ensures InGrid(b, rows, cols) ==>
      (r.Some? <==> 0 <= Ahead(b.position, b.direction).0 < rows && 0 <= Ahead(b.position, b.direction).1 < cols)
  {
    var (row, col) := b.position;
    match b.direction
    case Right => if col + 1 < cols then Some(Beam(Right, (row, col + 1))) else None
    case Left => if col > 0 then Some(Beam(Left, (row, col - 1))) else None
    case Up => if row > 0 then Some(Beam(Up, (row - 1, col))) else None
    case Down => if row + 1 < rows then Some(Beam(Down, (row + 1, col))) else None
  }

  lemma NextInGrid(b: Beam, rows: nat, cols: nat)
    requires InGrid(b, rows, cols) && Next(b, rows, cols).Some?
    ensures InGrid(Next(b, rows, cols).value, rows, cols)
  {
  }

  predicate Vertical(d: Direction) { d == Up || d == Down }

  /** `split_horizontal`: a beam heading up or down leaves a `-` splitter both right and
      left, from the same position; one heading across passes unchanged. */
  function SplitHorizontal(b: Beam): (r: seq<Beam>)
    ensures Vertical(b.direction) ==> r == [Beam(Right, b.position), Beam(Left, b.position)]
    ensures !Vertical(b.direction) ==> r == [b]
  {
    match b.direction
    case Up => [Beam(Right, b.position), Beam(Left, b.position)]
    case Down => [Beam(Right, b.position), Beam(Left, b.position)]
    case _ => [b]
  }

  /** `split_vertical`: a beam heading across leaves a `|` splitter both up and down. */
  function SplitVertical(b: Beam): (r: seq<Beam>)
    ensures !Vertical(b.direction) ==> r == [Beam(Up, b.position), Beam(Down, b.position)]
    ensures Vertical(b.direction) ==> r == [b]
  {
    match b.direction
    case Right => [Beam(Up, b.position), Beam(Down, b.position)]
    case Left => [Beam(Up, b.position), Beam(Down, b.position)]
    case _ => [b]
  }

  /** `nw_mirror`, the `\` mirror. */
  function NwMirror(b: Beam): (r: Beam)
    ensures r.position == b.position
    ensures Vertical(r.direction) <==> !Vertical(b.direction)
  {
    match b.direction
    case Right => Beam(Down, b.position)
    case Left => Beam(Up, b.position)
    case Up => Beam(Left, b.position)
    case Down => Beam(Right, b.position)
  }

  /** `ne_mirror`, the `/` mirror. */
  function NeMirror(b: Beam): (r: Beam)
    ensures r.position == b.position
    ensures Vertical(r.direction) <==> !Vertical(b.direction)
  {
    match b.direction
    case Right => Beam(Up, b.position)
    case Left => Beam(Down, b.position)
    case Up => Beam(Right, b.position)
    case Down => Beam(Left, b.position)
  }

  /** A mirror sends a beam back the way it came when the beam is reversed. */
  lemma MirrorsInvolutions(b: Beam)
    ensures NwMirror(NwMirror(b)) == b && NeMirror(NeMirror(b)) == b
  {
  }

  /** The two mirrors turn a beam opposite ways. */
  lemma MirrorsOpposite(b: Beam)
    ensures NwMirror(b).direction != NeMirror(b).direction
  {
  }

  /** `filter_map(|beam| beam.next(..))`: the beams one cell on, in order, dropping those
      that leave the grid. */
  function Advance(bs: seq<Beam>, rows: nat, cols: nat): (r: seq<Beam>)
    ensures forall x :: x in r <==> exists i :: 0 <= i < |bs| && Next(bs[i], rows, cols) == Some(x)
  {
    if bs == [] then []
    else
      var rest := Advance(bs[1..], rows, cols);
      assert forall i :: 1 <= i < |bs| ==> bs[i] == bs[1..][i - 1];
      match Next(bs[0], rows, cols)
      case Some(x) => [x] + rest
      case None => rest
  }

  /** A contraption: at least one row, all rows equally long and not empty. */
  predicate Grid(tiles: seq<seq<Tile>>, cols: nat)
  {
    |tiles| > 0 && cols > 0 && forall r :: 0 <= r < |tiles| ==> |tiles[r]| == cols
  }

  /** The beams that leave the tile of `b`, as the `match` of the loop sends them. */
  function Step(tiles: seq<seq<Tile>>, cols: nat, b: Beam): (r: seq<Beam>)
    requires Grid(tiles, cols) && InGrid(b, |tiles|, cols)
    ensures forall x :: x in r ==> InGrid(x, |tiles|, cols)
  {
    var rows := |tiles|;
    var r := match tiles[b.position.0][b.position.1]
      case HSplitter => Advance(SplitHorizontal(b), rows, cols)
      case VSplitter => Advance(SplitVertical(b), rows, cols)
      case NEMirror => Advance([NeMirror(b)], rows, cols)
      case NWMirror => Advance([NwMirror(b)], rows, cols)
      case Empty => Advance([b], rows, cols);
    r
  }

  /** The beam the light enters with. */
  function Start(): Beam
  {
    Beam(Right, (0, 0))
  }

  /** `p` is a trail of beams from the start, each leaving the tile of the one before. */
  predicate Path(tiles: seq<seq<Tile>>, cols: nat, p: seq<Beam>)
    requires Grid(tiles, cols)
  {
    |p| > 0 && p[0] == Start() &&
    (forall i :: 0 <= i < |p| ==> InGrid(p[i], |tiles|, cols)) &&
    forall i :: 0 <= i < |p| - 1 ==> p[i + 1] in Step(tiles, cols, p[i])
  }

  /** Every beam that leaves a tile of a beam in `s` is in `s` too. */
  predicate Closed(tiles: seq<seq<Tile>>, cols: nat, s: set<Beam>)
    requires Grid(tiles, cols)
  {
    (forall b :: b in s ==> InGrid(b, |tiles|, cols)) &&
    forall b, x :: b in s && x in Step(tiles, cols, b) ==> x in s
  }

  /** `s` is the set of beams the light reaches: the start, closed under leaving tiles,
      and nothing without a trail from the start. */
  ghost predicate Energized(tiles: seq<seq<Tile>>, cols: nat, s: set<Beam>)
    requires Grid(tiles, cols)
  {
    Start() in s && Closed(tiles, cols, s) &&
    forall b :: b in s ==> exists p :: Path(tiles, cols, p) && p[|p| - 1] == b
  }

  /** The end of every trail lies in any closed set holding the start. */
  lemma {:induction false} PathEndsIn(tiles: seq<seq<Tile>>, cols: nat, p: seq<Beam>, s: set<Beam>)
    requires Grid(tiles, cols) && Path(tiles, cols, p) && Start() in s && Closed(tiles, cols, s)
    ensures p[|p| - 1] in s
    decreases |p|
  {
    if |p| > 1 {
      var q := p[..|p| - 1];
      assert Path(tiles, cols, q) by {
        assert forall i :: 0 <= i < |q| ==> q[i] == p[i];
      }
      PathEndsIn(tiles, cols, q, s);
      assert p[|p| - 1] in Step(tiles, cols, p[|p| - 2]);
    }
  }

  /** The energized set is the least closed set holding the start, so it is unique. */
  lemma EnergizedUnique(tiles: seq<seq<Tile>>, cols: nat, s: set<Beam>, t: set<Beam>)
    requires Grid(tiles, cols) && Energized(tiles, cols, s) && Energized(tiles, cols, t)
    ensures s == t
  {
    forall b | b in s ensures b in t {
      var p :| Path(tiles, cols, p) && p[|p| - 1] == b;
      PathEndsIn(tiles, cols, p, t);
    }
    forall b | b in t ensures b in s {
      var p :| Path(tiles, cols, p) && p[|p| - 1] == b;
      PathEndsIn(tiles, cols, p, s);
    }
  }

  /** `b` has its trail in `trails`. */
  predicate Traced(tiles: seq<seq<Tile>>, cols: nat, trails: map<Beam, seq<Beam>>, b: Beam)
    requires Grid(tiles, cols)
  {
    b in trails && Path(tiles, cols, trails[b]) && trails[b][|trails[b]| - 1] == b
  }

  /** A trail to `b` extends to a trail to every beam leaving the tile of `b`. */
  lemma Extend(tiles: seq<seq<Tile>>, cols: nat, trail: seq<Beam>, b: Beam, x: Beam)
    requires Grid(tiles, cols) && Path(tiles, cols, trail) && trail[|trail| - 1] == b
    requires InGrid(b, |tiles|, cols) && x in Step(tiles, cols, b)
    ensures Path(tiles, cols, trail + [x])
  {
    var p := trail + [x];
    assert forall i :: 0 <= i < |trail| ==> p[i] == trail[i];
  }

  /** Every beam in the grid. */
  function AllBeams(rows: nat, cols: nat): (s: set<Beam>)
    ensures forall b :: InGrid(b, rows, cols) ==> b in s
  {
    var s := set r: nat, c: nat, d: Direction | r < rows && c < cols && d in [Right, Left, Up, Down] :: Beam(d, (r, c));
    forall b | InGrid(b, rows, cols) ensures b in s {
      var d := b.direction;
      assert d == Right || d == Left || d == Up || d == Down;
      assert d in [Right, Left, Up, Down];
      assert b == Beam(b.direction, (b.position.0, b.position.1));
    }
    s
  }

  /** What the loop keeps: every beam waiting or remembered is in the grid and has a
      trail; the start is waiting or remembered; the beams leaving the tile of a remembered
      beam are waiting or remembered. */
  ghost predicate Frontier(tiles: seq<seq<Tile>>, cols: nat, history: set<Beam>, beams: seq<Beam>,
                           trails: map<Beam, seq<Beam>>)
    requires Grid(tiles, cols)
  {
    (forall b :: b in beams ==> InGrid(b, |tiles|, cols)) &&
    (forall b :: b in history ==> InGrid(b, |tiles|, cols)) &&
    (Start() in history || Start() in beams) &&
    (forall b, x :: b in history && x in Step(tiles, cols, b) ==> x in history || x in beams) &&
    forall b :: b in history || b in beams ==> Traced(tiles, cols, trails, b)
  }

  lemma FrontierStart(tiles: seq<seq<Tile>>, cols: nat)
    requires Grid(tiles, cols)
    ensures Frontier(tiles, cols, {}, [Start()], map[Start() := [Start()]])
  {
  }

  /** A beam seen before is dropped. */
  lemma FrontierDrop(tiles: seq<seq<Tile>>, cols: nat, history: set<Beam>, beams: seq<Beam>,
                     trails: map<Beam, seq<Beam>>)
    requires Grid(tiles, cols) && Frontier(tiles, cols, history, beams, trails)
    requires beams != [] && beams[0] in history
    ensures Frontier(tiles, cols, history, beams[1..], trails)
  {
    assert forall x :: x in beams ==> x == beams[0] || x in beams[1..];
  }

  /** A new beam is remembered and the beams leaving its tile wait at the back. */
  lemma FrontierVisit(tiles: seq<seq<Tile>>, cols: nat, history: set<Beam>, beams: seq<Beam>,
                      trails: map<Beam, seq<Beam>>)
    requires Grid(tiles, cols) && Frontier(tiles, cols, history, beams, trails)
    requires beams != [] && beams[0] !in history
    ensures Frontier(tiles, cols, history + {beams[0]}, beams[1..] + Step(tiles, cols, beams[0]),
      trails + map x | x in Step(tiles, cols, beams[0]) :: trails[beams[0]] + [x])
  {
    var beam := beams[0];
    var next := Step(tiles, cols, beam);
    var h, q := history + {beam}, beams[1..] + next;
    assert forall x :: x in beams ==> x == beam || x in beams[1..];
    assert forall x :: x in q <==> x in beams[1..] || x in next;
    VisitTraced(tiles, cols, history + (set x | x in beams), trails, beam);
  }

  /** Extending the trails to the beams leaving the tile of a traced beam keeps every
      traced beam traced and traces those beams too. */
  lemma VisitTraced(tiles: seq<seq<Tile>>, cols: nat, seen: set<Beam>, trails: map<Beam, seq<Beam>>, beam: Beam)
    requires Grid(tiles, cols) && beam in seen && beam in trails && InGrid(beam, |tiles|, cols)
    requires forall b :: b in seen ==> Traced(tiles, cols, trails, b)
    ensures forall b :: b in seen || b in Step(tiles, cols, beam) ==>
      Traced(tiles, cols, trails + map x | x in Step(tiles, cols, beam) :: trails[beam] + [x], b)
  {
    var next := Step(tiles, cols, beam);
    var t := trails + map x | x in next :: trails[beam] + [x];
    forall b | b in seen || b in next ensures Traced(tiles, cols, t, b) {
      if b in next {
        Extend(tiles, cols, trails[beam], beam, b);
      } else {
        assert t[b] == trails[b];
      }
    }
  }

  lemma FrontierDone(tiles: seq<seq<Tile>>, cols: nat, history: set<Beam>, trails: map<Beam, seq<Beam>>)
    requires Grid(tiles, cols) && Frontier(tiles, cols, history, [], trails)
    ensures Energized(tiles, cols, history)
  {
    forall b | b in history ensures exists p :: Path(tiles, cols, p) && p[|p| - 1] == b {
      assert Traced(tiles, cols, trails, b);
    }
  }

  /** The loop of `solve`: beams wait in a queue; one that was seen before is dropped,
      otherwise it is remembered and the beams leaving its tile join the back of the
      queue. The remembered beams are then the energized set; `order` lists them in the
      order they were processed, each once. */
  method Explore(tiles: seq<seq<Tile>>, cols: nat) returns (history: set<Beam>, ghost order: seq<Beam>)
    requires Grid(tiles, cols)
    ensures Energized(tiles, cols, history)
    ensures forall b :: b in history <==> b in order
    ensures forall i, j :: 0 <= i < j < |order| ==> order[i] != order[j]
  {
    order := [];
    ghost var all := AllBeams(|tiles|, cols);
    var beams := [Start()];
    history := {};
    ghost var trails: map<Beam, seq<Beam>> := map[Start() := [Start()]];
    FrontierStart(tiles, cols);
    while beams != []
      invariant Frontier(tiles, cols, history, beams, trails)
      invariant forall b :: b in history <==> b in order
      invariant forall i, j :: 0 <= i < j < |order| ==> order[i] != order[j]
      decreases all - history, |beams|
    {
      var beam := beams[0];
      if beam in history {
        FrontierDrop(tiles, cols, history, beams, trails);
        beams := beams[1..];
      } else {
        FrontierVisit(tiles, cols, history, beams, trails);
        var next := Step(tiles, cols, beam);
        trails := trails + map x | x in next :: trails[beam] + [x];
        history := history + {beam};
        order := order + [beam];
        beams := beams[1..] + next;
      }
    }
    FrontierDone(tiles, cols, history, trails);
  }

  /** The number of distinct positions among the beams. */
  function Positions(s: set<Beam>): set<(nat, nat)>
  {
    set b | b in s :: b.position
  }

  /** The tiles of a row of bytes, or none if a byte is no tile. */
  function TilesOf(line: string): (r: Option<seq<Tile>>)
    ensures r.Some? <==> forall i :: 0 <= i < |line| ==> TileOf(line[i]).Some?
    ensures r.Some? ==> |r.value| == |line|
    ensures r.Some? ==> forall i :: 0 <= i < |line| ==> TileOf(line[i]) == Some(r.value[i])
  {
    if line == [] then Some([])
    else match (TileOf(line[0]), TilesOf(line[1..]))
      case (Some(t), Some(rest)) => Some([t] + rest)
      case _ =>
        assert forall i :: 1 <= i < |line| ==> line[i] == line[1..][i - 1];
        None
  }

  /** `rows` rows of `w` tiles cut from `flat`, as `Grid::from_vec` lays them out. */
  function Reshape(flat: seq<Tile>, w: nat, rows: nat): (b: seq<seq<Tile>>)
    requires |flat| == rows * w
    ensures |b| == rows && forall r :: 0 <= r < rows ==> |b[r]| == w
  {
    if rows == 0 then [] else [flat[..w]] + Reshape(flat[w..], w, rows - 1)
  }

  /** The contraption of the input: the lines' bytes run together and cut into rows of the
      first line's width. There is none for an input without lines, with a byte that is no
      tile, or whose bytes do not fill whole rows; nor for a first line without bytes,
      whose grid has no tile at the start. */
  function Contraption(input: string): (r: Option<seq<seq<Tile>>>)
    ensures r.Some? ==> Lines(input) != [] && Grid(r.value, |Lines(input)[0]|)
  {
    var lines := Lines(input);
    if lines == [] then None
    else
      var w := |lines[0]|;
      match TilesOf(Concat(lines))
      case None => None
      case Some(flat) =>
        if w == 0 || (|flat| / w) * w != |flat| then None
        else
          assert |Concat(lines)| >= w;
          Some(Reshape(flat, w, |flat| / w))
  }

  /** `solve`: the number of energized tiles, or none when the input is no contraption. */
  method Solve(input: string) returns (r: Option<nat>)
    ensures r.None? <==> Contraption(input).None?
    ensures r.Some? ==> exists s ::
      Energized(Contraption(input).value, |Lines(input)[0]|, s) && r.value == |Positions(s)|
  {
    var tiles := Contraption(input);
    if tiles.None? {
      return None;
    }
    var history, _ := Explore(tiles.value, |Lines(input)[0]|);
    return Some(|Positions(history)|);
  }
}
