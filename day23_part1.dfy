/** Day 23, part 1: the longest hike through a map of paths ('.'), forest ('#') and steep
    slopes ('^', 'v', '<', '>') that may only be walked downhill. The corridors between
    forks become the weighted edges of a graph on 16-bit node ids; every route from the
    start that never steps onto a node twice is then tried, keeping the longest one that
    ends at the target. */
module Day23Part1 {
  import opened Text
  import opened Grids

  datatype Node = Node(row: nat, col: nat)

  type U16 = n: int | 0 <= n < 0x1_0000

  /** `NodeId(u16)`. */
  datatype NodeId = NodeId(value: U16)

  /** `NodeId::from`: the row-major index of the node, cut to its low 16 bits by `as u16`. */
  function FromNode(node: Node, cols: nat): (id: NodeId)
    ensures node.row * cols + node.col < 0x1_0000 ==> id.value == node.row * cols + node.col
  {
    NodeId((node.row * cols + node.col) % 0x1_0000)
  }

  /** `NodeId::row`; the source divides by zero when there are no columns. */
  function RowOf(id: NodeId, cols: nat): (r: nat)
    requires cols > 0
    ensures r * cols <= id.value < (r + 1) * cols
  {
    id.value / cols
  }

  /** `NodeId::col`. */
  function ColOf(id: NodeId, cols: nat): (c: nat)
    requires cols > 0
    ensures c < cols && RowOf(id, cols) * cols + c == id.value
  {
    id.value % cols
  }

  /** Division by the width undoes the row-major index. */
  lemma DivideIndex(row: nat, col: nat, cols: nat)
    requires col < cols
    ensures (row * cols + col) / cols == row && (row * cols + col) % cols == col
  {
    var i := row * cols + col;
    var q, m := i / cols, i % cols;
    assert (q - row) * cols == col - m;
    MultipleBelow(q - row, cols);
  }

  /** A node whose index fits in 16 bits and whose column is inside the grid gets its row
      and its column back from its id. */
  lemma NodeIdRoundTrip(node: Node, cols: nat)
    requires node.col < cols && node.row * cols + node.col < 0x1_0000
    ensures RowOf(FromNode(node, cols), cols) == node.row
    ensures ColOf(FromNode(node, cols), cols) == node.col
  {
    DivideIndex(node.row, node.col, cols);
  }

  /** On such nodes the ids are distinct exactly when the nodes are. */
  lemma NodeIdInjective(a: Node, b: Node, cols: nat)
    requires a.col < cols && a.row * cols + a.col < 0x1_0000
    requires b.col < cols && b.row * cols + b.col < 0x1_0000
    ensures FromNode(a, cols) == FromNode(b, cols) <==> a == b
  {
    if FromNode(a, cols) == FromNode(b, cols) {
      NodeIdRoundTrip(a, cols);
      NodeIdRoundTrip(b, cols);
    }
  }

  /** The cast keeps only 16 bits: nodes 65536 cells apart share an id. */
  lemma NodeIdWraps(node: Node, cols: nat)
    ensures FromNode(Node(node.row, node.col + 0x1_0000), cols) == FromNode(node, cols)
  {
    var i := node.row * cols + node.col;
    assert (i + 0x1_0000) % 0x1_0000 == i % 0x1_0000;
  }

  datatype Direction = Up | Down | Left | Right

  /** `Direction::opposite`: never the direction itself. */
  function Opposite(d: Direction): (r: Direction)
    ensures r != d
  {
    match d
    case Up => Down
    case Down => Up
    case Left => Right
    case Right => Left
  }

  /** Turning round twice faces the way one started. */
  lemma OppositeInvolution(d: Direction)
    ensures Opposite(Opposite(d)) == d
  {
  }

  /** The position of a direction in the array `next_positions` returns. */
  function Index(d: Direction): (i: nat)
    ensures i < 4
  {
    match d
    case Up => 0
    case Down => 1
    case Left => 2
    case Right => 3
  }

  /** The direction at a position of that array. */
  function DirectionAt(i: nat): (d: Direction)
    requires i < 4
    ensures Index(d) == i
  {
    if i == 0 then Up else if i == 1 then Down else if i == 2 then Left else Right
  }

  /** The orthogonal neighbour in a direction, none above the top row or left of the first
      column. */
  function Neighbour(n: Node, d: Direction): Option<Node>
  {
    match d
    case Up => if n.row == 0 then None else Some(Node(n.row - 1, n.col))
    case Down => Some(Node(n.row + 1, n.col))
    case Left => if n.col == 0 then None else Some(Node(n.row, n.col - 1))
    case Right => Some(Node(n.row, n.col + 1))
  }

  /** The way back from a neighbour is the opposite direction. */
  lemma NeighbourBack(n: Node, d: Direction)
    requires Neighbour(n, d).Some?
    ensures Neighbour(Neighbour(n, d).value, Opposite(d)) == Some(n)
  {
  }

  /** `Node::step`, whose subtractions saturate at zero. */
  function Step(n: Node, d: Direction): Node
  {
    match d
    case Up => Node(if n.row > 0 then n.row - 1 else 0, n.col)
    case Down => Node(n.row + 1, n.col)
    case Left => Node(n.row, if n.col > 0 then n.col - 1 else 0)
    case Right => Node(n.row, n.col + 1)
  }

  /** A step reaches the neighbour when there is one and stays put at the edge otherwise. */
  lemma StepNeighbour(n: Node, d: Direction)
    ensures Neighbour(n, d).Some? ==> Step(n, d) == Neighbour(n, d).value
    ensures Neighbour(n, d).None? ==> Step(n, d) == n
  {
  }

  /** The slope that may be walked in a direction. */
  function Slope(d: Direction): char
  {
    match d
    case Up => '^'
    case Down => 'v'
    case Left => '<'
    case Right => '>'
  }

  /** A cell one may enter going in direction `d`: a path or the slope that runs that way. */
  predicate Open(c: Option<char>, d: Direction)
  {
    c == Some('.') || c == Some(Slope(d))
  }

  /** A grid of at least one row whose rows all have the first row's width, at least one. */
  predicate Shaped(g: seq<string>)
  {
    |g| > 0 && |g[0]| > 0 && forall r :: 0 <= r < |g| ==> |g[r]| == |g[0]|
  }

  function Cols(g: seq<string>): nat
    requires Shaped(g)
  {
    |g[0]|
  }

  /** `try_step_up`, `try_step_down`, `try_step_left` and `try_step_right`: the neighbour in
      the direction, when there is one and its cell can be entered going that way. */
  function TryStep(g: seq<string>, n: Node, d: Direction): Option<Node>
    requires Shaped(g)
  {
    match d
    case Up =>
      if n.row == 0 then None
      else if Open(Get(g, n.row - 1, n.col), Up) then Some(Node(n.row - 1, n.col)) else None
    case Down =>
      if n.row == |g| - 1 then None
      else if Open(Get(g, n.row + 1, n.col), Down) then Some(Node(n.row + 1, n.col)) else None
    case Left =>
      if n.col == 0 then None
      else if Open(Get(g, n.row, n.col - 1), Left) then Some(Node(n.row, n.col - 1)) else None
    case Right =>
      if n.col == Cols(g) - 1 then None
      else if Open(Get(g, n.row, n.col + 1), Right) then Some(Node(n.row, n.col + 1)) else None
  }

  /** A step in direction `d` succeeds exactly when there is a neighbour that way whose cell
      can be entered going that way, and it goes to that neighbour. */
  lemma TryStepOpen(g: seq<string>, n: Node, d: Direction)
    requires Shaped(g)
    ensures TryStep(g, n, d).Some? <==> (Neighbour(n, d).Some? &&
      Open(Get(g, Neighbour(n, d).value.row, Neighbour(n, d).value.col), d))
    ensures TryStep(g, n, d).Some? ==> TryStep(g, n, d) == Neighbour(n, d)
  {
  }

  /** `next_positions`: the four ways on, in the order up, down, left, right. */
  function NextPositions(g: seq<string>, n: Node, d: Direction): (r: seq<Option<Node>>)
    requires Shaped(g)
    ensures |r| == 4
  {
    match d
    case Up => [TryStep(g, n, Up), None, TryStep(g, n, Left), TryStep(g, n, Right)]
    case Down => [None, TryStep(g, n, Down), TryStep(g, n, Left), TryStep(g, n, Right)]
    case Left => [TryStep(g, n, Up), TryStep(g, n, Down), TryStep(g, n, Left), None]
    case Right => [TryStep(g, n, Up), TryStep(g, n, Down), None, TryStep(g, n, Right)]
  }

  /** Every way on is the `try_step` that way, except the way back, which is never taken. */
  lemma NextPositionsAt(g: seq<string>, n: Node, d: Direction, e: Direction)
    requires Shaped(g)
    ensures NextPositions(g, n, d)[Index(e)] == if e == Opposite(d) then None else TryStep(g, n, e)
  {
  }

  /** How many of the four ways on are open. */
  function Opens(next: seq<Option<Node>>): (n: nat)
    requires |next| == 4
    ensures n <= 4
  {
    (if next[0].Some? then 1 else 0) + (if next[1].Some? then 1 else 0) +
    (if next[2].Some? then 1 else 0) + (if next[3].Some? then 1 else 0)
  }

  /** The way on when exactly one of the four is open, the four single-way arms of the
      match in `build_graph`. */
  function OnlyWay(next: seq<Option<Node>>): (r: Option<Direction>)
    requires |next| == 4
    ensures r.Some? <==> Opens(next) == 1
    ensures r.Some? ==> next[Index(r.value)].Some?
  {
    match (next[0].Some?, next[1].Some?, next[2].Some?, next[3].Some?)
    case (true, false, false, false) => Some(Up)
    case (false, true, false, false) => Some(Down)
    case (false, false, true, false) => Some(Left)
    case (false, false, false, true) => Some(Right)
    case _ => None
  }

  /** None of the four ways on is open. */
  predicate AllClosed(next: seq<Option<Node>>)
    requires |next| == 4
    ensures AllClosed(next) <==> Opens(next) == 0
  {
    next[0].None? && next[1].None? && next[2].None? && next[3].None?
  }

  /** Where the walk along a corridor ends: at a dead end, at a fork or the target (with
      the last direction, the length so far and the ways on), or nowhere when it has not
      ended after the given number of moves (the source would go round for ever). */
  datatype Walk = DeadEnd | Junction(at: Node, heading: Direction, length: nat, next: seq<Option<Node>>) | Endless

  /** The inner loop of `build_graph` from `position`, heading `direction`, `length` moves
      from the node the corridor left. A junction is at least as far as the walk started,
      comes with the four ways on, and has no single way on; it is the target or has a
      way on. */
  function Corridor(g: seq<string>, target: Node, position: Node, direction: Direction, length: nat, fuel: nat): (r: Walk)
    requires Shaped(g)
    ensures r.Junction? ==> r.length >= length && |r.next| == 4
    decreases fuel
  {
    var next := NextPositions(g, position, direction);
    match OnlyWay(next)
    case Some(e) =>
      if fuel == 0 then Endless
      else Corridor(g, target, next[Index(e)].value, e, length + 1, fuel - 1)
    case None =>
      if AllClosed(next) && position != target then DeadEnd
      else Junction(position, direction, length, next)
  }

  /** A junction comes with the ways on from where it is, has no single way on, and is the
      target or has a way on. */
  lemma {:induction false} CorridorJunction(g: seq<string>, target: Node, position: Node, direction: Direction, length: nat, fuel: nat)
    requires Shaped(g)
    ensures var w := Corridor(g, target, position, direction, length, fuel);
      w.Junction? ==> (w.next == NextPositions(g, w.at, w.heading) && Opens(w.next) != 1 &&
        (w.at == target || Opens(w.next) > 0))
    decreases fuel
  {
    var next := NextPositions(g, position, direction);
    if OnlyWay(next).Some? && fuel > 0 {
      CorridorJunction(g, target, next[Index(OnlyWay(next).value)].value, OnlyWay(next).value, length + 1, fuel - 1);
    }
  }

  /** The node reached by moving along `ds`, each move a `try_step` that succeeds. */
  function Follow(g: seq<string>, n: Node, ds: seq<Direction>): Option<Node>
    requires Shaped(g)
    decreases |ds|
  {
    if ds == [] then Some(n)
    else match TryStep(g, n, ds[0])
      case None => None
      case Some(m) => Follow(g, m, ds[1..])
  }

  /** A walk that ends at a junction went there by as many moves as it added to the length,
      each one into a cell it may enter, never turning straight back, and arriving in the
      junction's heading. */
  lemma {:induction false} CorridorFollows(g: seq<string>, target: Node, position: Node, direction: Direction, length: nat, fuel: nat)
    returns (ds: seq<Direction>)
    requires Shaped(g) && Corridor(g, target, position, direction, length, fuel).Junction?
    ensures var w := Corridor(g, target, position, direction, length, fuel);
      |ds| == w.length - length && Follow(g, position, ds) == Some(w.at) &&
      (ds == [] ==> w.heading == direction) && (ds != [] ==> w.heading == ds[|ds| - 1])
    ensures ds != [] ==> ds[0] != Opposite(direction)
    ensures forall i :: 0 <= i < |ds| - 1 ==> ds[i + 1] != Opposite(ds[i])
    decreases fuel
  {
    var next := NextPositions(g, position, direction);
    match OnlyWay(next)
    case Some(e) =>
      var m := next[Index(e)].value;
      var rest := CorridorFollows(g, target, m, e, length + 1, fuel - 1);
      ds := [e] + rest;
      assert ds[1..] == rest;
      NextPositionsAt(g, position, direction, e);
      NextPositionsAt(g, position, direction, Opposite(direction));
      assert TryStep(g, position, e) == Some(m);
    case None =>
      ds := [];
  }

  datatype Edge = Edge(length: nat, to: NodeId)

  type Graph = map<NodeId, seq<Edge>>

  /** `graph.entry(k).or_default().push(e)`: `e` goes at the end of `k`'s edges and every
      other entry stays as it was. */
  function AddEdge(graph: Graph, k: NodeId, e: Edge): (r: Graph)
    ensures r.Keys == graph.Keys + {k}
    ensures r[k] == (if k in graph then graph[k] else []) + [e]
    ensures forall j :: j in graph && j != k ==> r[j] == graph[j]
  {
    graph[k := (if k in graph then graph[k] else []) + [e]]
  }

  /** What a junction queues when it is not the target: each open way on, in the order of
      the array, then the way back. */
  function Pushes(p: Node, d: Direction, next: seq<Option<Node>>): (r: seq<(Node, Direction)>)
    requires |next| == 4
    ensures |r| == Opens(next) + 1 && r[|r| - 1] == (p, Opposite(d))
    ensures forall i :: 0 <= i < |r| - 1 ==> r[i].0 == p && next[Index(r[i].1)].Some?
    ensures forall e :: next[Index(e)].Some? ==> (p, e) in r
  {
    (if next[0].Some? then [(p, Up)] else []) +
    (if next[1].Some? then [(p, Down)] else []) +
    (if next[2].Some? then [(p, Left)] else []) +
    (if next[3].Some? then [(p, Right)] else []) +
    [(p, Opposite(d))]
  }

  /** The edge a corridor gives from `node` set off in `direction`: the walk starts with an
      unchecked `step`, and its junction is where the edge goes. */
  function EdgeOf(g: seq<string>, target: Node, reach: nat, node: Node, direction: Direction): Option<Edge>
    requires Shaped(g)
  {
    match Corridor(g, target, Step(node, direction), direction, 1, reach)
    case Junction(p, _, length, _) => Some(Edge(length, FromNode(p, Cols(g))))
    case _ => None
  }

  /** The outer loop of `build_graph`, taking at most `fuel` entries off the queue and
      letting each corridor walk make at most `reach` moves; none where the source would
      not stop. */
  function Explore(g: seq<string>, target: Node, s: Explored, fuel: nat, reach: nat): Option<Graph>
    requires Shaped(g)
    decreases fuel
  {
    if s.queue == [] then Some(s.graph)
    else if fuel == 0 then None
    else match ExploreOne(g, target, s, reach)
      case None => None
      case Some(next) => Explore(g, target, next, fuel - 1, reach)
  }

  /** A turn of the loop that ends spends one unit of fuel; one whose walk does not end
      ends the loop without a graph. */
  lemma ExploreStep(g: seq<string>, target: Node, s: Explored, fuel: nat, reach: nat, step: Option<Explored>)
    requires Shaped(g) && s.queue != [] && fuel > 0 && step == ExploreOne(g, target, s, reach)
    ensures Explore(g, target, s, fuel, reach) == if step.None? then None else Explore(g, target, step.value, fuel - 1, reach)
  {
  }

  /** The loop's state before its first turn: the start heading down, nothing walked, and
      no edges. */
  function Begin(start: Node): Explored
  {
    Explored([(start, Down)], {}, map[])
  }

  /** The state of the loop of `build_graph`. */
  datatype Explored = Explored(queue: seq<(Node, Direction)>, visited: set<(Node, Direction)>, graph: Graph)

  /** One turn of that loop: the first entry of the queue is taken off; when it was not
      walked before, it is marked and its corridor walked; a junction adds an edge and,
      unless it is the target, queues its ways on. None when the walk does not end. */
  function ExploreOne(g: seq<string>, target: Node, s: Explored, reach: nat): Option<Explored>
    requires Shaped(g) && s.queue != []
  {
    var Explored(queue, visited, graph) := s;
    var (node, direction) := queue[0];
    if (node, direction) in visited then Some(Explored(queue[1..], visited, graph))
    else match Corridor(g, target, Step(node, direction), direction, 1, reach)
      case Endless => None
      case DeadEnd => Some(Explored(queue[1..], visited + {(node, direction)}, graph))
      case Junction(p, d, length, next) =>
        var more := if p != target then Pushes(p, d, next) else [];
        var edge := Edge(length, FromNode(p, Cols(g)));
        Some(Explored(queue[1..] + more, visited + {(node, direction)}, AddEdge(graph, FromNode(node, Cols(g)), edge)))
  }

  /** `e` is the edge of a corridor walked from some node whose id is `k`. */
  ghost predicate EdgeTraced(g: seq<string>, target: Node, reach: nat, k: NodeId, e: Edge)
    requires Shaped(g)
  {
    exists node: Node, direction: Direction :: FromNode(node, Cols(g)) == k &&
      EdgeOf(g, target, reach, node, direction) == Some(e)
  }

  /** Every edge of the graph is the edge of a corridor walked from a node with its key. */
  ghost predicate Traced(g: seq<string>, target: Node, reach: nat, graph: Graph)
    requires Shaped(g)
  {
    forall k, i :: k in graph && 0 <= i < |graph[k]| ==> EdgeTraced(g, target, reach, k, graph[k][i])
  }

  lemma AddTraced(g: seq<string>, target: Node, reach: nat, graph: Graph, node: Node, direction: Direction)
    requires Shaped(g) && Traced(g, target, reach, graph) && EdgeOf(g, target, reach, node, direction).Some?
    ensures Traced(g, target, reach, AddEdge(graph, FromNode(node, Cols(g)), EdgeOf(g, target, reach, node, direction).value))
  {
    var k, e := FromNode(node, Cols(g)), EdgeOf(g, target, reach, node, direction).value;
    var r := AddEdge(graph, k, e);
    assert EdgeTraced(g, target, reach, k, e);
    forall j, i | j in r && 0 <= i < |r[j]|
      ensures EdgeTraced(g, target, reach, j, r[j][i])
    {
      if j != k || i != |r[j]| - 1 {
        assert j in graph && 0 <= i < |graph[j]| && r[j][i] == graph[j][i];
      }
    }
  }

  /** Exploring only ever adds traced edges. */
  lemma {:induction false} ExploreTraced(g: seq<string>, target: Node, s: Explored, fuel: nat, reach: nat)
    requires Shaped(g) && Traced(g, target, reach, s.graph)
    ensures Explore(g, target, s, fuel, reach).Some? ==> Traced(g, target, reach, Explore(g, target, s, fuel, reach).value)
    decreases fuel
  {
    if s.queue != [] && fuel > 0 {
      var step := ExploreOne(g, target, s, reach);
      if step.Some? {
        var (node, direction) := s.queue[0];
        if (node, direction) !in s.visited && EdgeOf(g, target, reach, node, direction).Some? {
          AddTraced(g, target, reach, s.graph, node, direction);
        }
        ExploreTraced(g, target, step.value, fuel - 1, reach);
      }
    }
  }

  /** An edge of a corridor from `node` is as long as the walk: one unchecked step, then
      moves into cells that may be entered, never turning back, to the node its `to` names. */
  lemma EdgeWalk(g: seq<string>, target: Node, reach: nat, node: Node, direction: Direction) returns (p: Node, ds: seq<Direction>)
    requires Shaped(g) && EdgeOf(g, target, reach, node, direction).Some?
    ensures var e := EdgeOf(g, target, reach, node, direction).value;
      e.length == |ds| + 1 && e.to == FromNode(p, Cols(g)) && Follow(g, Step(node, direction), ds) == Some(p)
    ensures ds != [] ==> ds[0] != Opposite(direction)
    ensures forall i :: 0 <= i < |ds| - 1 ==> ds[i + 1] != Opposite(ds[i])
  {
    ds := CorridorFollows(g, target, Step(node, direction), direction, 1, reach);
    p := Corridor(g, target, Step(node, direction), direction, 1, reach).at;
  }

  /** `State` of `longest_path`: where a route is, how far it went, and the nodes it entered. */
  datatype State = State(position: NodeId, distance: nat, visited: set<NodeId>)

  /** The state pushed for an edge, none when the edge leads back into the route. */
  function Visit(st: State, e: Edge): seq<State>
  {
    if e.to in st.visited then [] else [State(e.to, st.distance + e.length, st.visited + {e.to})]
  }

  /** The states the `for edge in edges` loop pushes, in order. */
  function Expand(st: State, edges: seq<Edge>): seq<State>
  {
    if edges == [] then [] else Expand(st, edges[..|edges| - 1]) + Visit(st, edges[|edges| - 1])
  }

  function Max(a: nat, b: nat): nat
  {
    if a >= b then a else b
  }

  /** The loop of `longest_path` from `queue` with the longest distance `best` found so far,
      taking at most `fuel` states off the queue; none when it has not finished. */
  function Search(graph: Graph, target: NodeId, queue: seq<State>, best: nat, fuel: nat): (r: Option<nat>)
    ensures r.Some? ==> r.value >= best
    ensures r.Some? ==> forall k :: 0 <= k < |queue| && queue[k].position == target ==> r.value >= queue[k].distance
    decreases fuel
  {
    if queue == [] then Some(best)
    else if fuel == 0 then None
    else
      var st := queue[0];
      if st.position == target then Search(graph, target, queue[1..], Max(best, st.distance), fuel - 1)
      else if st.position in graph then
        var next := queue[1..] + Expand(st, graph[st.position]);
        assert forall k :: 1 <= k < |queue| ==> queue[k] == next[k - 1];
        Search(graph, target, next, best, fuel - 1)
      else Search(graph, target, queue[1..], best, fuel - 1)
  }

  /** `longest_path`: the search from the start, which is not itself marked visited. */
  function LongestPath(graph: Graph, start: NodeId, target: NodeId, fuel: nat): Option<nat>
  {
    Search(graph, target, [State(start, 0, {})], 0, fuel)
  }

  /** The node a route of edges from `start` ends at. */
  function End(start: NodeId, p: seq<Edge>): NodeId
  {
    if p == [] then start else p[|p| - 1].to
  }

  /** Each edge of the route leaves the node the route has reached. */
  predicate IsRoute(graph: Graph, start: NodeId, p: seq<Edge>)
  {
    p == [] ||
    (IsRoute(graph, start, p[..|p| - 1]) &&
     End(start, p[..|p| - 1]) in graph && p[|p| - 1] in graph[End(start, p[..|p| - 1])])
  }

  function Length(p: seq<Edge>): nat
  {
    if p == [] then 0 else Length(p[..|p| - 1]) + p[|p| - 1].length
  }

  function Entered(p: seq<Edge>): set<NodeId>
  {
    set i | 0 <= i < |p| :: p[i].to
  }

  /** No two edges of the route lead to the same node. */
  predicate NoRevisit(p: seq<Edge>)
  {
    forall i, j :: 0 <= i < j < |p| ==> p[i].to != p[j].to
  }

  /** A route from `start` to `target` of total length `n` that enters no node twice. */
  predicate Hike(graph: Graph, start: NodeId, target: NodeId, p: seq<Edge>, n: nat)
  {
    IsRoute(graph, start, p) && End(start, p) == target && Length(p) == n && NoRevisit(p)
  }

  /** A state of the search stands for the route `p`. */
  predicate Realizes(graph: Graph, start: NodeId, p: seq<Edge>, st: State)
  {
    IsRoute(graph, start, p) && End(start, p) == st.position && Length(p) == st.distance &&
    Entered(p) == st.visited && NoRevisit(p)
  }

  lemma EnteredAppend(p: seq<Edge>, e: Edge)
    ensures Entered(p + [e]) == Entered(p) + {e.to}
  {
    var q := p + [e];
    assert q[|p|] == e;
    forall v | v in Entered(q) ensures v in Entered(p) + {e.to} {
      var i :| 0 <= i < |q| && q[i].to == v;
      if i < |p| {
        assert q[i] == p[i];
      }
    }
    forall v | v in Entered(p) ensures v in Entered(q) {
      var i :| 0 <= i < |p| && p[i].to == v;
      assert q[i] == p[i];
    }
  }

  /** Following an edge to a node not yet entered extends the route of a state. */
  lemma VisitRealizes(graph: Graph, start: NodeId, p: seq<Edge>, st: State, e: Edge)
    requires Realizes(graph, start, p, st) && st.position in graph && e in graph[st.position]
    requires e.to !in st.visited
    ensures Realizes(graph, start, p + [e], Visit(st, e)[0])
  {
    var q := p + [e];
    assert q[..|q| - 1] == p;
    EnteredAppend(p, e);
    forall i, j | 0 <= i < j < |q| ensures q[i].to != q[j].to {
      if j == |p| {
        assert q[i] == p[i];
        assert p[i].to in Entered(p);
      } else {
        assert q[i] == p[i] && q[j] == p[j];
      }
    }
  }

  /** Every state `for edge in edges` pushes stands for a route one edge longer. */
  lemma {:induction false} ExpandRealizes(graph: Graph, start: NodeId, p: seq<Edge>, st: State, edges: seq<Edge>)
    returns (ps: seq<seq<Edge>>)
    requires Realizes(graph, start, p, st) && st.position in graph
    requires forall i :: 0 <= i < |edges| ==> edges[i] in graph[st.position]
    ensures |ps| == |Expand(st, edges)|
    ensures forall j :: 0 <= j < |ps| ==> Realizes(graph, start, ps[j], Expand(st, edges)[j])
  {
    if edges == [] {
      ps := [];
    } else {
      var front, e := edges[..|edges| - 1], edges[|edges| - 1];
      assert forall i :: 0 <= i < |front| ==> front[i] == edges[i];
      var qs := ExpandRealizes(graph, start, p, st, front);
      if e.to in st.visited {
        ps := qs;
      } else {
        VisitRealizes(graph, start, p, st, e);
        ps := qs + [p + [e]];
      }
    }
  }

  /** Each state stands for the route at its place. */
  predicate AllRealize(graph: Graph, start: NodeId, paths: seq<seq<Edge>>, queue: seq<State>)
  {
    |paths| == |queue| && forall j :: 0 <= j < |queue| ==> Realizes(graph, start, paths[j], queue[j])
  }

  lemma RealizeRest(graph: Graph, start: NodeId, paths: seq<seq<Edge>>, queue: seq<State>)
    requires AllRealize(graph, start, paths, queue) && queue != []
    ensures Realizes(graph, start, paths[0], queue[0]) && AllRealize(graph, start, paths[1..], queue[1..])
  {
    assert forall j :: 0 <= j < |queue| - 1 ==> queue[1..][j] == queue[j + 1] && paths[1..][j] == paths[j + 1];
  }

  lemma RealizeJoin(graph: Graph, start: NodeId, ps: seq<seq<Edge>>, qs: seq<State>, ps': seq<seq<Edge>>, qs': seq<State>)
    requires AllRealize(graph, start, ps, qs)
    requires |ps'| == |qs'| && forall j :: 0 <= j < |qs'| ==> Realizes(graph, start, ps'[j], qs'[j])
    ensures AllRealize(graph, start, ps + ps', qs + qs')
  {
    forall j | 0 <= j < |qs| + |qs'| ensures Realizes(graph, start, (ps + ps')[j], (qs + qs')[j]) {
      if j < |qs| {
        assert (ps + ps')[j] == ps[j] && (qs + qs')[j] == qs[j];
      } else {
        assert (ps + ps')[j] == ps'[j - |qs|] && (qs + qs')[j] == qs'[j - |qs|];
      }
    }
  }

  /** When every queued state stands for a route and `best` is zero or the length of a hike,
      a search that finishes with a positive answer answers the length of a hike. */
  lemma {:induction false} SearchSound(graph: Graph, start: NodeId, target: NodeId, queue: seq<State>, paths: seq<seq<Edge>>,
    best: nat, bestPath: seq<Edge>, fuel: nat) returns (p: seq<Edge>)
    requires AllRealize(graph, start, paths, queue)
    requires best == 0 || Hike(graph, start, target, bestPath, best)
    ensures var r := Search(graph, target, queue, best, fuel);
      r.Some? && r.value > 0 ==> Hike(graph, start, target, p, r.value)
    decreases fuel
  {
    if queue == [] || fuel == 0 {
      p := bestPath;
    } else {
      var st := queue[0];
      RealizeRest(graph, start, paths, queue);
      if st.position == target {
        if st.distance > best {
          p := SearchSound(graph, start, target, queue[1..], paths[1..], st.distance, paths[0], fuel - 1);
        } else {
          p := SearchSound(graph, start, target, queue[1..], paths[1..], best, bestPath, fuel - 1);
        }
      } else if st.position in graph {
        var edges := graph[st.position];
        assert forall i :: 0 <= i < |edges| ==> edges[i] in graph[st.position];
        var ps := ExpandRealizes(graph, start, paths[0], st, edges);
        var more := Expand(st, edges);
        RealizeJoin(graph, start, paths[1..], queue[1..], ps, more);
        p := SearchSound(graph, start, target, queue[1..] + more, paths[1..] + ps, best, bestPath, fuel - 1);
      } else {
        p := SearchSound(graph, start, target, queue[1..], paths[1..], best, bestPath, fuel - 1);
      }
    }
  }

  /** A positive answer of `longest_path` is the length of a route from the start to the
      target along edges of the graph that enters no node twice. */
  lemma LongestPathIsHike(graph: Graph, start: NodeId, target: NodeId, fuel: nat) returns (p: seq<Edge>)
    ensures var r := LongestPath(graph, start, target, fuel);
      r.Some? && r.value > 0 ==> Hike(graph, start, target, p, r.value)
  {
    assert Realizes(graph, start, [], State(start, 0, {}));
    assert AllRealize(graph, start, [[]], [State(start, 0, {})]);
    p := SearchSound(graph, start, target, [State(start, 0, {})], [[]], 0, [], fuel);
  }

  /** When the start is the target the search stops there with 0. */
  lemma LongestPathAtTarget(graph: Graph, start: NodeId, fuel: nat)
    requires fuel > 0
    ensures LongestPath(graph, start, start, fuel) == Some(0)
  {
    assert [State(start, 0, {})][1..] == [];
    assert Search(graph, start, [], 0, fuel - 1) == Some(0);
  }

  /** The grid read from the input: the lines' bytes run together into rows of the first
      line's width. None where the source panics: no lines (the first line is indexed), a
      width of zero or bytes that do not fill whole rows (`Grid::from_vec` asserts), or
      fewer than two columns (the target's column is `cols() - 2`). */
  function ReadTrails(input: string): (r: Option<seq<string>>)
    ensures r.Some? ==> Lines(input) != [] && Shaped(r.value) && Cols(r.value) >= 2 && Cols(r.value) == |Lines(input)[0]|
  {
    var lines := Lines(input);
    if lines == [] || |lines[0]| < 2 then None
    else
      var flat, cols := Concat(lines), |lines[0]|;
      var rows := |flat| / cols;
      if rows * cols != |flat| || rows == 0 then None
      else
        OffsetIsProduct(rows, cols);
        Some(Reshape(flat, cols, rows))
  }

  /** `solve` for a grid: the graph from the start (row 0, column 1) to the target (last
      row, last column but one), then the longest hike between their ids. */
  function Hikes(g: seq<string>, fuel: nat): Option<nat>
    requires Shaped(g) && Cols(g) >= 2
  {
    HikesBetween(g, Node(0, 1), Node(|g| - 1, Cols(g) - 2), fuel)
  }

  /** The graph from `start` to `target`, then the longest hike between their ids. */
  function HikesBetween(g: seq<string>, start: Node, target: Node, fuel: nat): Option<nat>
    requires Shaped(g)
  {
    match Explore(g, target, Begin(start), fuel, fuel)
    case None => None
    case Some(graph) => LongestPath(graph, FromNode(start, Cols(g)), FromNode(target, Cols(g)), fuel)
  }

  function Answer(input: string, fuel: nat): Option<nat>
  {
    match ReadTrails(input)
    case None => None
    case Some(g) => Hikes(g, fuel)
  }

  /** A positive answer is the length of a hike through the graph, every edge of which is a
      corridor walked in the grid from a node with the edge's key. */
  lemma AnswerIsHike(g: seq<string>, fuel: nat) returns (graph: Graph, p: seq<Edge>)
    requires Shaped(g) && Cols(g) >= 2 && Hikes(g, fuel).Some? && Hikes(g, fuel).value > 0
    ensures var start, target := Node(0, 1), Node(|g| - 1, Cols(g) - 2);
      Explore(g, target, Begin(start), fuel, fuel) == Some(graph) &&
      Traced(g, target, fuel, graph) &&
      Hike(graph, FromNode(start, Cols(g)), FromNode(target, Cols(g)), p, Hikes(g, fuel).value)
  {
    var start, target := Node(0, 1), Node(|g| - 1, Cols(g) - 2);
    ExploreTraced(g, target, Begin(start), fuel, fuel);
    graph := Explore(g, target, Begin(start), fuel, fuel).value;
    p := LongestPathIsHike(graph, FromNode(start, Cols(g)), FromNode(target, Cols(g)), fuel);
  }

  /** The inner loop of `build_graph`: walk the corridor until it forks or ends. */
  method WalkCorridor(g: seq<string>, target: Node, from: Node, heading: Direction, reach: nat) returns (w: Walk)
    requires Shaped(g)
    ensures w == Corridor(g, target, from, heading, 1, reach)
  {
    var position, direction, length, fuel := from, heading, 1, reach;
    while true
      invariant Corridor(g, target, position, direction, length, fuel) == Corridor(g, target, from, heading, 1, reach)
      decreases fuel
    {
      var next := NextPositions(g, position, direction);
      var way := OnlyWay(next);
      if way.Some? {
        if fuel == 0 {
          return Endless;
        }
        position, direction, length, fuel := next[Index(way.value)].value, way.value, length + 1, fuel - 1;
      } else if AllClosed(next) && position != target {
        return DeadEnd;
      } else {
        return Junction(position, direction, length, next);
      }
    }
  }

  /** `build_graph`: the queue of corridor starts, the set of those already walked, and the
      graph the junctions add edges to. */
  method BuildGraph(g: seq<string>, start: Node, target: Node, fuel: nat) returns (r: Option<Graph>)
    requires Shaped(g)
    ensures r == Explore(g, target, Begin(start), fuel, fuel)
  {
    r := ExploreFrom(g, target, Begin(start), fuel);
  }

  /** The loop of `build_graph` from the state `init`. */
  method ExploreFrom(g: seq<string>, target: Node, init: Explored, fuel: nat) returns (r: Option<Graph>)
    requires Shaped(g)
    ensures r == Explore(g, target, init, fuel, fuel)
  {
    var state := init;
    var steps := fuel;
    while state.queue != []
      invariant Explore(g, target, state, steps, fuel) == Explore(g, target, init, fuel, fuel)
      decreases steps
    {
      if steps == 0 {
        return None;
      }
      var step := Turn(g, target, state, steps, fuel);
      if step.None? {
        return None;
      }
      state, steps := step.value, steps - 1;
    }
    return Some(state.graph);
  }

  /** A turn of the loop of `build_graph`, spending one unit of fuel. */
  method Turn(g: seq<string>, target: Node, s: Explored, fuel: nat, reach: nat) returns (r: Option<Explored>)
    requires Shaped(g) && s.queue != [] && fuel > 0
    ensures r.None? ==> Explore(g, target, s, fuel, reach).None?
    ensures r.Some? ==> Explore(g, target, s, fuel, reach) == Explore(g, target, r.value, fuel - 1, reach)
  {
    r := VisitEntry(g, target, s, reach);
    ExploreStep(g, target, s, fuel, reach, r);
  }

  /** The body of the loop of `build_graph`. */
  method VisitEntry(g: seq<string>, target: Node, s: Explored, reach: nat) returns (r: Option<Explored>)
    requires Shaped(g) && s.queue != []
    ensures r == ExploreOne(g, target, s, reach)
  {
    var Explored(queue, visited, graph) := s;
    var (node, direction) := queue[0];
    if (node, direction) in visited {
      return Some(Explored(queue[1..], visited, graph));
    }
    var w := WalkCorridor(g, target, Step(node, direction), direction, reach);
    match w
    case Endless =>
      return None;
    case DeadEnd =>
      return Some(Explored(queue[1..], visited + {(node, direction)}, graph));
    case Junction(position, heading, length, next) =>
      var more := if position != target then Pushes(position, heading, next) else [];
      var edge := Edge(length, FromNode(position, Cols(g)));
      return Some(Explored(queue[1..] + more, visited + {(node, direction)}, AddEdge(graph, FromNode(node, Cols(g)), edge)));
  }

  /** The `for edge in edges` loop of `longest_path`. */
  method PushEdges(queue: seq<State>, st: State, edges: seq<Edge>) returns (q: seq<State>)
    ensures q == queue + Expand(st, edges)
  {
    q := queue;
    for i := 0 to |edges|
      invariant q == queue + Expand(st, edges[..i])
    {
      assert edges[..i + 1][..i] == edges[..i];
      if edges[i].to !in st.visited {
        q := q + [State(edges[i].to, st.distance + edges[i].length, st.visited + {edges[i].to})];
      }
    }
    assert edges[..|edges|] == edges;
  }

  /** `longest_path`: the queue of routes and the longest distance seen at the target. */
  method LongestPathOf(graph: Graph, start: NodeId, target: NodeId, fuel: nat) returns (r: Option<nat>)
    ensures r == LongestPath(graph, start, target, fuel)
  {
    var queue := [State(start, 0, {})];
    var maxDistance := 0;
    var steps := fuel;
    while queue != []
      invariant Search(graph, target, queue, maxDistance, steps) == LongestPath(graph, start, target, fuel)
      decreases steps
    {
      if steps == 0 {
        return None;
      }
      var st := queue[0];
      queue := queue[1..];
      if st.position == target {
        maxDistance := Max(maxDistance, st.distance);
      } else if st.position in graph {
        queue := PushEdges(queue, st, graph[st.position]);
      }
      steps := steps - 1;
    }
    return Some(maxDistance);
  }

  /** `solve`: none where the source panics or would not stop within `fuel`, else the
      longest hike. */
  method Solve(input: string, fuel: nat) returns (r: Option<nat>)
    ensures r == Answer(input, fuel)
  {
    var g := ReadTrails(input);
    if g.None? {
      return None;
    }
    r := HikesOf(g.value, fuel);
  }

  /** `solve` once the grid is read. */
  method HikesOf(g: seq<string>, fuel: nat) returns (r: Option<nat>)
    requires Shaped(g) && Cols(g) >= 2
    ensures r == Hikes(g, fuel)
  {
    r := HikesBetweenOf(g, Node(0, 1), Node(|g| - 1, Cols(g) - 2), fuel);
  }

  /** The graph from `start` to `target`, then the longest path between them. */
  method HikesBetweenOf(g: seq<string>, start: Node, target: Node, fuel: nat) returns (r: Option<nat>)
    requires Shaped(g)
    ensures r == HikesBetween(g, start, target, fuel)
  {
    var cols := Cols(g);
    var graph := BuildGraph(g, start, target, fuel);
    if graph.None? {
      return None;
    }
    r := LongestPathOf(graph.value, FromNode(start, cols), FromNode(target, cols), fuel);
  }
}
