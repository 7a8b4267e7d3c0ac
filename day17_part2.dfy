/** Day 17, part 2: the least heat an ultra crucible loses on its way from the top-left
    block to the bottom-right one. The crucible moves between four and ten blocks in a
    straight line and then turns a quarter; each block it enters costs its digit. The search
    is Dijkstra's: a priority queue of states popped cheapest first, and a set of visited
    (position, axis) pairs. */
module Day17Part2 {
  import opened Text

  datatype Direction = Up | Down | Left | Right

  /** A crucible that has just stopped at `position` after moving in `direction`, having
      lost `cost` so far. */
  datatype State = State(cost: nat, position: (nat, nat), direction: Direction)

  const MinSteps: nat := 4
  const MaxSteps: nat := 10
  const NextStatesMax: nat := (MaxSteps - MinSteps + 1) * 2

  /** The heat loss of every block, row by row. */
  type Grid = seq<seq<nat>>

  predicate IsGrid(grid: Grid)
  {
    |grid| > 0 && |grid[0]| > 0 && forall r :: 0 <= r < |grid| ==> |grid[r]| == |grid[0]|
  }

  predicate InGrid(grid: Grid, p: (nat, nat))
  {
    IsGrid(grid) && p.0 < |grid| && p.1 < |grid[0]|
  }

  function Cell(grid: Grid, p: (nat, nat)): nat
    requires InGrid(grid, p)
  {
    grid[p.0][p.1]
  }

  /** The bottom-right block. */
  function Target(grid: Grid): (nat, nat)
    requires IsGrid(grid)
  {
    (|grid| - 1, |grid[0]| - 1)
  }

  function Vertical(d: Direction): bool
  {
    d == Up || d == Down
  }

  /** What the search marks visited: a position and whether it was reached vertically. */
  type Key = ((nat, nat), bool)

  /** The key of a state: where it stands and on which axis it came. */
  function Node(s: State): Key
  {
    (s.position, Vertical(s.direction))
  }

  /** How many blocks lie beyond `p` in direction `d` before the edge of the grid. */
  function Reach(grid: Grid, p: (nat, nat), d: Direction): nat
    requires InGrid(grid, p)
  {
    match d
    case Up => p.0
    case Down => |grid| - 1 - p.0
    case Left => p.1
    case Right => |grid[0]| - 1 - p.1
  }

  /** The block `n` blocks beyond `p` in direction `d`. */
  function Away(grid: Grid, p: (nat, nat), d: Direction, n: nat): (q: (nat, nat))
    requires InGrid(grid, p) && n <= Reach(grid, p, d)
    ensures InGrid(grid, q)
  {
    match d
    case Up => (p.0 - n, p.1)
    case Down => (p.0 + n, p.1)
    case Left => (p.0, p.1 - n)
    case Right => (p.0, p.1 + n)
  }

  /** The heat lost entering the first `n` blocks beyond `p` in direction `d`. */
  function Run(grid: Grid, p: (nat, nat), d: Direction, n: nat): nat
    requires InGrid(grid, p) && n <= Reach(grid, p, d)
  {
    if n == 0 then 0 else Run(grid, p, d, n - 1) + Cell(grid, Away(grid, p, d, n))
  }

  function Min(a: nat, b: nat): nat
  {
    if a <= b then a else b
  }

  /** `right_cost`, `left_cost`, `up_cost` and `down_cost`: `cost` plus the blocks among
      the first `steps` beyond `p` in direction `d` that lie inside the grid. The sum over
      those blocks is the run up to the nearer of `steps` and the edge. */
  function CostAhead(grid: Grid, cost: nat, p: (nat, nat), d: Direction, steps: nat): (c: nat)
    requires InGrid(grid, p)
    ensures c == cost + Run(grid, p, d, Min(steps, Reach(grid, p, d)))
  {
    if steps == 0 then cost
    else if steps <= Reach(grid, p, d) then
      CostAhead(grid, cost, p, d, steps - 1) + Cell(grid, Away(grid, p, d, steps))
    else CostAhead(grid, cost, p, d, steps - 1)
  }

  /** The state reached by moving exactly `n` blocks from `p` in direction `d`, if the
      grid is that long. */
  function Arrive(grid: Grid, p: (nat, nat), d: Direction, cost: nat, n: nat): seq<State>
    requires InGrid(grid, p)
  {
    if n <= Reach(grid, p, d) then [State(cost + Run(grid, p, d, n), Away(grid, p, d, n), d)]
    else []
  }

  /** The two directions a crucible on an axis may turn to. */
  function Turns(vertical: bool): (Direction, Direction)
  {
    if vertical then (Left, Right) else (Up, Down)
  }

  /** The moves of `MinSteps` up to `n - 1` blocks after a turn off the axis, in push
      order. */
  function Moves(grid: Grid, p: (nat, nat), vertical: bool, cost: nat, n: nat): seq<State>
    requires InGrid(grid, p)
  {
    if n <= MinSteps then []
    else
      Moves(grid, p, vertical, cost, n - 1)
      + Arrive(grid, p, Turns(vertical).0, cost, n - 1) + Arrive(grid, p, Turns(vertical).1, cost, n - 1)
  }

  /** The states `next_states` pushes for `s`. */
  function Successors(grid: Grid, s: State): seq<State>
    requires InGrid(grid, s.position)
  {
    Moves(grid, s.position, Vertical(s.direction), s.cost, MaxSteps + 1)
  }

  /** The runs of `MinSteps` up to `n - 1` blocks right and down from the top-left block. */
  function Starts(grid: Grid, n: nat): seq<State>
    requires IsGrid(grid)
  {
    if n <= MinSteps then []
    else Starts(grid, n - 1) + Arrive(grid, (0, 0), Right, 0, n - 1) + Arrive(grid, (0, 0), Down, 0, n - 1)
  }

  /** The states `start_states` pushes. */
  function Initial(grid: Grid): seq<State>
    requires IsGrid(grid)
  {
    Starts(grid, MaxSteps + 1)
  }

  /** Every move turns off the axis, travels between `MinSteps` and `n - 1` blocks inside
      the grid, and costs `cost` plus the blocks it entered. */
  lemma {:induction false} MovesTurn(grid: Grid, p: (nat, nat), vertical: bool, cost: nat, n: nat, t: State)
    requires InGrid(grid, p) && t in Moves(grid, p, vertical, cost, n)
    ensures Vertical(t.direction) != vertical
    ensures
      exists k :: MinSteps <= k < n && k <= Reach(grid, p, t.direction)
        && t.position == Away(grid, p, t.direction, k) && t.cost == cost + Run(grid, p, t.direction, k)
  {
    var (a, b) := Turns(vertical);
    if t !in Arrive(grid, p, a, cost, n - 1) && t !in Arrive(grid, p, b, cost, n - 1) {
      MovesTurn(grid, p, vertical, cost, n - 1, t);
    }
  }

  /** Each successor turns a quarter, goes `MinSteps` to `MaxSteps` blocks without leaving
      the grid, and its cost is the state's plus the heat of every block entered. */
  lemma SuccessorsTurn(grid: Grid, s: State, t: State)
    requires InGrid(grid, s.position) && t in Successors(grid, s)
    ensures Vertical(t.direction) != Vertical(s.direction)
    ensures InGrid(grid, t.position) && t.cost >= s.cost
    ensures
      exists k :: MinSteps <= k <= MaxSteps && k <= Reach(grid, s.position, t.direction)
        && t.position == Away(grid, s.position, t.direction, k)
        && t.cost == s.cost + Run(grid, s.position, t.direction, k)
  {
    MovesTurn(grid, s.position, Vertical(s.direction), s.cost, MaxSteps + 1, t);
  }

  lemma {:induction false} MovesCount(grid: Grid, p: (nat, nat), vertical: bool, cost: nat, n: nat)
    requires InGrid(grid, p) && n >= MinSteps
    ensures |Moves(grid, p, vertical, cost, n)| <= 2 * (n - MinSteps)
  {
    if n > MinSteps {
      MovesCount(grid, p, vertical, cost, n - 1);
    }
  }

  /** A state has at most `NEXT_STATES_MAX` successors, the capacity of the array. */
  lemma SuccessorsCount(grid: Grid, s: State)
    requires InGrid(grid, s.position)
    ensures |Successors(grid, s)| <= NextStatesMax
  {
    MovesCount(grid, s.position, Vertical(s.direction), s.cost, MaxSteps + 1);
  }

  /** The moves depend on the cost only by adding it: the same move from a different cost
      is there too, shifted by the difference. */
  lemma {:induction false} MovesShift(grid: Grid, p: (nat, nat), vertical: bool, cost: nat, other: nat, n: nat, t: State)
    requires InGrid(grid, p) && t in Moves(grid, p, vertical, cost, n)
    ensures t.cost >= cost
    ensures State(t.cost - cost + other, t.position, t.direction) in Moves(grid, p, vertical, other, n)
  {
    var (a, b) := Turns(vertical);
    if t !in Arrive(grid, p, a, cost, n - 1) && t !in Arrive(grid, p, b, cost, n - 1) {
      MovesShift(grid, p, vertical, cost, other, n - 1, t);
    }
  }

  /** Two states on the same block and axis have the same successors, up to their costs. */
  lemma SuccessorsShift(grid: Grid, s: State, r: State, t: State)
    requires InGrid(grid, s.position) && Node(r) == Node(s) && t in Successors(grid, s)
    ensures t.cost >= s.cost
    ensures State(t.cost - s.cost + r.cost, t.position, t.direction) in Successors(grid, r)
  {
    MovesShift(grid, s.position, Vertical(s.direction), s.cost, r.cost, MaxSteps + 1, t);
  }

  lemma {:induction false} StartsFromCorner(grid: Grid, n: nat, t: State)
    requires IsGrid(grid)
    ensures t in Starts(grid, n) <==>
      t in Moves(grid, (0, 0), true, 0, n) || t in Moves(grid, (0, 0), false, 0, n)
  {
    if n > MinSteps {
      StartsFromCorner(grid, n - 1, t);
    }
  }

  /** The start states are the moves from the top-left block at no cost along either axis:
      the crucible may set off rightwards or downwards. */
  lemma InitialAreMoves(grid: Grid, t: State)
    requires IsGrid(grid)
    ensures t in Initial(grid) <==>
      t in Successors(grid, State(0, (0, 0), Down)) || t in Successors(grid, State(0, (0, 0), Right))
  {
    StartsFromCorner(grid, MaxSteps + 1, t);
  }

  /** A route of the ultra crucible: a start state, then a successor at every step. */
  ghost predicate Path(grid: Grid, p: seq<State>)
  {
    IsGrid(grid) && |p| > 0 && p[0] in Initial(grid)
    && (forall i :: 0 <= i < |p| ==> InGrid(grid, p[i].position))
    && forall i :: 0 <= i < |p| - 1 ==> p[i + 1] in Successors(grid, p[i])
  }

  function Last(p: seq<State>): State
    requires |p| > 0
  {
    p[|p| - 1]
  }

  /** `c` is the least heat loss of any route that stops at the bottom-right block. */
  ghost predicate LeastHeatLoss(grid: Grid, c: nat)
  {
    (exists p :: Path(grid, p) && Last(p).position == Target(grid) && Last(p).cost == c)
    && forall p :: Path(grid, p) && Last(p).position == Target(grid) ==> c <= Last(p).cost
  }

  /** No route stops at the bottom-right block. */
  ghost predicate Unreachable(grid: Grid)
  {
    forall p :: Path(grid, p) ==> Last(p).position != Target(grid)
  }

  /** The least heat loss is one number, and there is none when the target is unreachable. */
  lemma LeastHeatLossUnique(grid: Grid, a: nat, b: nat)
    requires LeastHeatLoss(grid, a)
    ensures LeastHeatLoss(grid, b) <==> a == b
    ensures !Unreachable(grid)
  {
    var p :| Path(grid, p) && Last(p).position == Target(grid) && Last(p).cost == a;
    if LeastHeatLoss(grid, b) {
      var q :| Path(grid, q) && Last(q).position == Target(grid) && Last(q).cost == b;
      assert a <= b && b <= a;
    }
  }

  lemma PathInit(grid: Grid, p: seq<State>)
    requires Path(grid, p) && |p| > 1
    ensures Path(grid, p[..|p| - 1])
    ensures Last(p) in Successors(grid, Last(p[..|p| - 1]))
  {
    assert p[..|p| - 1][0] == p[0];
  }

  lemma PathExtend(grid: Grid, p: seq<State>, t: State)
    requires Path(grid, p) && t in Successors(grid, Last(p))
    ensures Path(grid, p + [t]) && Last(p + [t]) == t
  {
    SuccessorsTurn(grid, Last(p), t);
    var q := p + [t];
    assert q[0] == p[0];
    forall i | 0 <= i < |q| - 1
      ensures q[i + 1] in Successors(grid, q[i])
    {
      if i < |p| - 1 {
        assert q[i] == p[i] && q[i + 1] == p[i + 1];
      }
    }
  }

  /** The costs along a route never fall. */
  lemma {:induction false} CostGrows(grid: Grid, p: seq<State>)
    requires Path(grid, p)
    ensures p[0].cost <= Last(p).cost
    decreases |p|
  {
    if |p| > 1 {
      PathInit(grid, p);
      CostGrows(grid, p[..|p| - 1]);
      SuccessorsTurn(grid, Last(p[..|p| - 1]), Last(p));
    }
  }

  /** The derived ordering of states: by cost, then row, then column, then direction. */
  function Rank(d: Direction): nat
  {
    match d
    case Up => 0
    case Down => 1
    case Left => 2
    case Right => 3
  }

  predicate AtMost(a: State, b: State)
  {
    a.cost < b.cost || (a.cost == b.cost &&
      (a.position.0 < b.position.0 || (a.position.0 == b.position.0 &&
        (a.position.1 < b.position.1 || (a.position.1 == b.position.1 &&
          Rank(a.direction) <= Rank(b.direction))))))
  }

  /** Where `BinaryHeap::pop` on reversed states takes from: the least state. */
  function Least(queue: seq<State>): (i: nat)
    requires queue != []
    ensures i < |queue| && forall j :: 0 <= j < |queue| ==> AtMost(queue[i], queue[j])
  {
    if |queue| == 1 then 0
    else
      var k := Least(queue[1..]) + 1;
      assert forall j :: 1 <= j < |queue| ==> queue[j] == queue[1..][j - 1];
      if AtMost(queue[0], queue[k]) then 0 else k
  }

  function Without(queue: seq<State>, i: nat): (rest: seq<State>)
    requires i < |queue|
    ensures |rest| == |queue| - 1
    ensures forall x :: x in queue ==> x == queue[i] || x in rest
    ensures forall x :: x in rest ==> x in queue
  {
    var rest := queue[..i] + queue[i + 1..];
    assert forall j :: 0 <= j < |queue| && j != i ==> queue[j] in rest by {
      forall j | 0 <= j < |queue| && j != i
        ensures queue[j] in rest
      {
        if j < i {
          assert rest[j] == queue[j];
        } else {
          assert rest[j - 1] == queue[j];
        }
      }
    }
    rest
  }

  /** Every queued state is the end of a route recorded in `trails`. */
  ghost predicate Traced(grid: Grid, queue: seq<State>, trails: map<State, seq<State>>)
  {
    forall q :: q in queue ==> q in trails && Path(grid, trails[q]) && Last(trails[q]) == q
  }

  /** Every visited key was reached first by the state recorded for it in `rep`, whose
      cost no route to that key undercuts; the target is never among them. */
  ghost predicate Settled(grid: Grid, visited: set<Key>, rep: map<Key, State>)
  {
    IsGrid(grid)
    && forall u :: u in visited ==>
      u in rep && Node(rep[u]) == u && InGrid(grid, u.0) && u.0 != Target(grid)
      && forall p :: Path(grid, p) && Node(Last(p)) == u ==> rep[u].cost <= Last(p).cost
  }

  /** The key of `t` is visited, or the queue holds a state with that key costing no more. */
  ghost predicate Covered(visited: set<Key>, queue: seq<State>, t: State)
  {
    Node(t) in visited || exists q :: q in queue && Node(q) == Node(t) && q.cost <= t.cost
  }

  /** Every start state and every successor of a visited key's state is covered. */
  ghost predicate Edges(grid: Grid, visited: set<Key>, rep: map<Key, State>, queue: seq<State>)
  {
    IsGrid(grid)
    && (forall t :: t in Initial(grid) ==> Covered(visited, queue, t))
    && forall u, t ::
         u in visited && u in rep && InGrid(grid, rep[u].position) && t in Successors(grid, rep[u])
         ==> Covered(visited, queue, t)
  }

  /** A route to a key that is not visited is undercut by some queued state. */
  lemma {:induction false} Frontier(grid: Grid, visited: set<Key>, rep: map<Key, State>, queue: seq<State>, p: seq<State>)
    requires Settled(grid, visited, rep) && Edges(grid, visited, rep, queue)
    requires Path(grid, p) && Node(Last(p)) !in visited
    ensures exists q :: q in queue && q.cost <= Last(p).cost
    decreases |p|
  {
    if |p| == 1 {
      assert Covered(visited, queue, Last(p));
    } else {
      var init := p[..|p| - 1];
      PathInit(grid, p);
      var prev := Last(init);
      SuccessorsTurn(grid, prev, Last(p));
      if Node(prev) !in visited {
        Frontier(grid, visited, rep, queue, init);
      } else {
        FrontierAfterSettled(grid, visited, rep, queue, init, Last(p));
      }
    }
  }

  /** A path leaving the settled region at its last step: the step taken from the settled
      representative of its second-to-last node instead reaches the same node no later, and
      that state is covered by the queue. */
  lemma FrontierAfterSettled(grid: Grid, visited: set<Key>, rep: map<Key, State>, queue: seq<State>,
                             init: seq<State>, last: State)
    requires Settled(grid, visited, rep) && Edges(grid, visited, rep, queue)
    requires Path(grid, init) && last in Successors(grid, Last(init))
    requires Node(Last(init)) in visited && Node(last) !in visited
    ensures exists q :: q in queue && q.cost <= last.cost
  {
    var prev := Last(init);
    SuccessorsTurn(grid, prev, last);
    var r := rep[Node(prev)];
    assert r.cost <= prev.cost;
    SuccessorsShift(grid, prev, r, last);
    var t := State(last.cost - prev.cost + r.cost, last.position, last.direction);
    assert Covered(visited, queue, t);
    var q :| q in queue && Node(q) == Node(t) && q.cost <= t.cost;
  }

  /** The state popped first undercuts every route to a key that is not visited. */
  lemma Popped(grid: Grid, visited: set<Key>, rep: map<Key, State>, queue: seq<State>, i: nat, p: seq<State>)
    requires Settled(grid, visited, rep) && Edges(grid, visited, rep, queue)
    requires i < |queue| && forall j :: 0 <= j < |queue| ==> AtMost(queue[i], queue[j])
    requires Path(grid, p) && Node(Last(p)) !in visited
    ensures queue[i].cost <= Last(p).cost
  {
    Frontier(grid, visited, rep, queue, p);
    var q :| q in queue && q.cost <= Last(p).cost;
    var j :| 0 <= j < |queue| && queue[j] == q;
    assert AtMost(queue[i], queue[j]);
  }

  /** The queue of start states satisfies the search's invariants. */
  lemma Begin(grid: Grid, queue: seq<State>, trails: map<State, seq<State>>)
    requires IsGrid(grid) && queue == Initial(grid)
    requires trails == map t | t in queue :: [t]
    ensures Search(grid, {}, map[], queue, trails)
  {
    forall t | t in queue
      ensures Path(grid, [t])
    {
      InitialAreMoves(grid, t);
      if t in Successors(grid, State(0, (0, 0), Down)) {
        SuccessorsTurn(grid, State(0, (0, 0), Down), t);
      } else {
        SuccessorsTurn(grid, State(0, (0, 0), Right), t);
      }
    }
    forall t | t in queue
      ensures Covered({}, queue, t)
    {
      assert t in queue && Node(t) == Node(t) && t.cost <= t.cost;
    }
  }

  /** Popping a state whose key is visited keeps every invariant. */
  lemma Drop(grid: Grid, visited: set<Key>, rep: map<Key, State>, queue: seq<State>, trails: map<State, seq<State>>, i: nat)
    requires Search(grid, visited, rep, queue, trails)
    requires i < |queue| && Node(queue[i]) in visited
    ensures Search(grid, visited, rep, Without(queue, i), trails)
  {
    var rest := Without(queue, i);
    forall t | Covered(visited, queue, t)
      ensures Covered(visited, rest, t)
    {
      if Node(t) !in visited {
        var q :| q in queue && Node(q) == Node(t) && q.cost <= t.cost;
        assert q in rest;
      }
    }
  }

  /** Popping the least state at a key not yet visited, and not at the target, visits the
      key and queues the state's successors, keeping every invariant. */
  lemma Visit(grid: Grid, visited: set<Key>, rep: map<Key, State>, queue: seq<State>, i: nat)
    requires Settled(grid, visited, rep) && Edges(grid, visited, rep, queue)
    requires i < |queue| && forall j :: 0 <= j < |queue| ==> AtMost(queue[i], queue[j])
    requires Node(queue[i]) !in visited && queue[i].position != Target(grid)
    requires InGrid(grid, queue[i].position)
    ensures Settled(grid, visited + {Node(queue[i])}, rep[Node(queue[i]) := queue[i]])
    ensures Edges(grid, visited + {Node(queue[i])}, rep[Node(queue[i]) := queue[i]],
      Without(queue, i) + Successors(grid, queue[i]))
  {
    var s := queue[i];
    var visited', rep' := visited + {Node(s)}, rep[Node(s) := s];
    var queue' := Without(queue, i) + Successors(grid, s);
    forall p | Path(grid, p) && Node(Last(p)) == Node(s)
      ensures s.cost <= Last(p).cost
    {
      Popped(grid, visited, rep, queue, i, p);
    }
    forall t | Covered(visited, queue, t)
      ensures Covered(visited', queue', t)
    {
      if Node(t) !in visited' {
        var q :| q in queue && Node(q) == Node(t) && q.cost <= t.cost;
        assert q in queue';
      }
    }
    forall t | t in Successors(grid, s)
      ensures Covered(visited', queue', t)
    {
      assert t in queue' && Node(t) == Node(t) && t.cost <= t.cost;
    }
    forall u, t | u in visited' && u in rep' && InGrid(grid, rep'[u].position)
      && t in Successors(grid, rep'[u])
      ensures Covered(visited', queue', t)
    {
      if u != Node(s) {
        assert Covered(visited, queue, t);
      }
    }
  }

  /** The trails after queueing the successors `next` of the state whose trail is
      `route`: each successor's trail is that route one step longer. */
  ghost function Grown(trails: map<State, seq<State>>, route: seq<State>, next: seq<State>): map<State, seq<State>>
  {
    trails + map t | t in next :: route + [t]
  }

  /** Queueing the successors of a traced state keeps every queued state traced. */
  lemma Extended(grid: Grid, queue: seq<State>, trails: map<State, seq<State>>, i: nat)
    requires Traced(grid, queue, trails) && i < |queue| && InGrid(grid, queue[i].position)
    ensures Traced(grid, Without(queue, i) + Successors(grid, queue[i]),
      Grown(trails, trails[queue[i]], Successors(grid, queue[i])))
  {
    var route, next := trails[queue[i]], Successors(grid, queue[i]);
    var trails' := Grown(trails, route, next);
    forall q | q in Without(queue, i) + next
      ensures q in trails' && Path(grid, trails'[q]) && Last(trails'[q]) == q
    {
      if q in next {
        PathExtend(grid, route, q);
      }
    }
  }

  /** The invariant of the search loop. */
  ghost predicate Search(grid: Grid, visited: set<Key>, rep: map<Key, State>, queue: seq<State>, trails: map<State, seq<State>>)
  {
    Settled(grid, visited, rep) && Edges(grid, visited, rep, queue) && Traced(grid, queue, trails)
  }

  /** One visit of the search, as a transition of its invariant. */
  lemma Expand(grid: Grid, visited: set<Key>, rep: map<Key, State>, queue: seq<State>, trails: map<State, seq<State>>, i: nat)
    requires Search(grid, visited, rep, queue, trails)
    requires i < |queue| && forall j :: 0 <= j < |queue| ==> AtMost(queue[i], queue[j])
    requires Node(queue[i]) !in visited && queue[i].position != Target(grid)
    ensures InGrid(grid, queue[i].position) && queue[i] in trails
    ensures Search(grid, visited + {Node(queue[i])}, rep[Node(queue[i]) := queue[i]],
      Without(queue, i) + Successors(grid, queue[i]),
      Grown(trails, trails[queue[i]], Successors(grid, queue[i])))
  {
    assert Path(grid, trails[queue[i]]);
    Visit(grid, visited, rep, queue, i);
    Extended(grid, queue, trails, i);
  }

  /** Popping the least state at the target: its cost is the least heat loss. */
  lemma Arrived(grid: Grid, visited: set<Key>, rep: map<Key, State>, queue: seq<State>, trails: map<State, seq<State>>, i: nat)
    requires Settled(grid, visited, rep) && Edges(grid, visited, rep, queue) && Traced(grid, queue, trails)
    requires i < |queue| && forall j :: 0 <= j < |queue| ==> AtMost(queue[i], queue[j])
    requires queue[i].position == Target(grid)
    ensures LeastHeatLoss(grid, queue[i].cost)
  {
    var p := trails[queue[i]];
    assert Path(grid, p) && Last(p).position == Target(grid) && Last(p).cost == queue[i].cost;
    forall p | Path(grid, p) && Last(p).position == Target(grid)
      ensures queue[i].cost <= Last(p).cost
    {
      Popped(grid, visited, rep, queue, i, p);
    }
  }

  /** An empty queue means no route reaches the target. */
  lemma Exhausted(grid: Grid, visited: set<Key>, rep: map<Key, State>)
    requires Settled(grid, visited, rep) && Edges(grid, visited, rep, [])
    ensures Unreachable(grid)
  {
    forall p | Path(grid, p)
      ensures Last(p).position != Target(grid)
    {
      if Node(Last(p)) !in visited {
        Frontier(grid, visited, rep, [], p);
      }
    }
  }

  /** Every key the search can visit. */
  function AllNodes(grid: Grid): (all: set<Key>)
    requires IsGrid(grid)
    ensures forall u: Key :: InGrid(grid, u.0) ==> u in all
  {
    var rows, cols := |grid|, |grid[0]|;
    var all := (set r: nat, c: nat | r < rows && c < cols :: ((r, c), true))
      + (set r: nat, c: nat | r < rows && c < cols :: ((r, c), false));
    assert forall u: Key :: InGrid(grid, u.0) ==> u in all by {
      forall u: Key | InGrid(grid, u.0)
        ensures u in all
      {
        var ((r, c), v) := u;
        if v {
          assert ((r, c), true) in all;
        } else {
          assert ((r, c), false) in all;
        }
      }
    }
    all
  }

  /** One length `n` of a run in direction `d`: when the block `n` away is inside the
      grid, its heat joins the running cost and the state that stops there is pushed. */
  method Lengthen(grid: Grid, p: (nat, nat), d: Direction, cost: nat, running: nat, n: nat)
    returns (running': nat, pushed: seq<State>)
    requires InGrid(grid, p) && n > 0
    requires running == cost + Run(grid, p, d, Min(n - 1, Reach(grid, p, d)))
    ensures running' == cost + Run(grid, p, d, Min(n, Reach(grid, p, d)))
    ensures pushed == Arrive(grid, p, d, cost, n)
  {
    running', pushed := running, [];
    if n <= Reach(grid, p, d) {
      var q := Away(grid, p, d, n);
      running' := running + Cell(grid, q);
      pushed := [State(running', q, d)];
    }
  }

  /** `next_states`: the running costs of the two turns grow block by block as the run
      lengthens, and a state is pushed for every length from `MinSteps` to `MaxSteps`
      that stays inside the grid. */
  method NextStates(grid: Grid, s: State) returns (states: seq<State>)
    requires InGrid(grid, s.position)
    ensures states == Successors(grid, s)
  {
    var p, vertical := s.position, Vertical(s.direction);
    var (a, b) := Turns(vertical);
    var aCost := CostAhead(grid, s.cost, p, a, MinSteps - 1);
    var bCost := CostAhead(grid, s.cost, p, b, MinSteps - 1);
    states := [];
    var n := MinSteps;
    while n <= MaxSteps
      invariant MinSteps <= n <= MaxSteps + 1
      invariant aCost == s.cost + Run(grid, p, a, Min(n - 1, Reach(grid, p, a)))
      invariant bCost == s.cost + Run(grid, p, b, Min(n - 1, Reach(grid, p, b)))
      invariant states == Moves(grid, p, vertical, s.cost, n)
    {
      var first, second;
      aCost, first := Lengthen(grid, p, a, s.cost, aCost, n);
      bCost, second := Lengthen(grid, p, b, s.cost, bCost, n);
      states := states + first + second;
      n := n + 1;
    }
  }

  /** `start_states`: runs of `MinSteps` to `MaxSteps` blocks rightwards along the top row
      and downwards along the left column, with their running costs. */
  method StartStates(grid: Grid) returns (states: seq<State>)
    requires IsGrid(grid)
    ensures states == Initial(grid)
  {
    var corner := (0, 0);
    var rightCost := CostAhead(grid, 0, corner, Right, MinSteps - 1);
    var downCost := CostAhead(grid, 0, corner, Down, MinSteps - 1);
    states := [];
    var n := MinSteps;
    while n <= MaxSteps
      invariant MinSteps <= n <= MaxSteps + 1
      invariant rightCost == Run(grid, corner, Right, Min(n - 1, Reach(grid, corner, Right)))
      invariant downCost == Run(grid, corner, Down, Min(n - 1, Reach(grid, corner, Down)))
      invariant states == Starts(grid, n)
    {
      var right, down;
      rightCost, right := Lengthen(grid, corner, Right, 0, rightCost, n);
      downCost, down := Lengthen(grid, corner, Down, 0, downCost, n);
      states := states + right + down;
      n := n + 1;
    }
  }

  /** The search of `solve`: pop the least state; at the target its cost is the answer;
      otherwise, the first time its key is seen, queue its successors. The answer is the
      least heat loss over all routes, and there is none when no route reaches the target. */
  method Crucible(grid: Grid) returns (r: Option<nat>)
    requires IsGrid(grid)
    ensures r.Some? ==> LeastHeatLoss(grid, r.value)
    ensures r.None? ==> Unreachable(grid)
  {
    var target := Target(grid);
    var queue := StartStates(grid);
    var visited: set<Key> := {};
    ghost var rep: map<Key, State> := map[];
    ghost var trails: map<State, seq<State>> := map t | t in queue :: [t];
    Begin(grid, queue, trails);
    while queue != []
      invariant Search(grid, visited, rep, queue, trails)
      decreases AllNodes(grid) - visited, |queue|
    {
      var i := Least(queue);
      var state := queue[i];
      if state.position == target {
        Arrived(grid, visited, rep, queue, trails, i);
        return Some(state.cost);
      }
      var vertical := state.direction == Up || state.direction == Down;
      if (state.position, vertical) !in visited {
        Expand(grid, visited, rep, queue, trails, i);
        var next := NextStates(grid, state);
        assert Node(state) in AllNodes(grid);
        visited := visited + {(state.position, vertical)};
        rep := rep[Node(state) := state];
        trails := Grown(trails, trails[state], next);
        queue := Without(queue, i) + next;
      } else {
        Drop(grid, visited, rep, queue, trails, i);
        queue := Without(queue, i);
      }
    }
    Exhausted(grid, visited, rep);
    return None;
  }

  /** The heat loss of a byte: its distance above '0'; a byte below '0' makes the
      subtraction overflow. */
  function Heat(c: char): Option<nat>
  {
    if c < '0' then None else Some(c as int - '0' as int)
  }

  function HeatsOf(s: string): (r: Option<seq<nat>>)
    ensures r.Some? <==> forall i :: 0 <= i < |s| ==> Heat(s[i]).Some?
    ensures r.Some? ==> |r.value| == |s|
    ensures r.Some? ==> forall i :: 0 <= i < |s| ==> Heat(s[i]) == Some(r.value[i])
  {
    if s == [] then Some([])
    else match (Heat(s[0]), HeatsOf(s[1..]))
      case (Some(h), Some(rest)) => Some([h] + rest)
      case _ =>
        assert forall i :: 1 <= i < |s| ==> s[i] == s[1..][i - 1];
        None
  }

  /** `rows` rows of `w` blocks cut from `flat`, as `Grid::from_vec` lays them out. */
  function Reshape(flat: seq<nat>, w: nat, rows: nat): (b: Grid)
    requires |flat| == rows * w
    ensures |b| == rows && forall r :: 0 <= r < rows ==> |b[r]| == w
  {
    if rows == 0 then [] else [flat[..w]] + Reshape(flat[w..], w, rows - 1)
  }

  /** The map of the input: the lines' bytes run together and cut into rows of the first
      line's width. There is none for an input without lines, with a byte below '0', with
      an empty first line, or whose bytes do not fill whole rows. */
  function Heatmap(input: string): (r: Option<Grid>)
    ensures r.Some? ==> IsGrid(r.value) && Lines(input) != [] && |r.value[0]| == |Lines(input)[0]|
  {
    var lines := Lines(input);
    if lines == [] then None
    else
      var w := |lines[0]|;
      match HeatsOf(Concat(lines))
      case None => None
      case Some(flat) =>
        if w == 0 || (|flat| / w) * w != |flat| then None
        else
          assert |Concat(lines)| >= w;
          Some(Reshape(flat, w, |flat| / w))
  }

  /** `solve`: the least heat loss of the ultra crucible, or none when the input is no map
      or the bottom-right block cannot be reached. */
  method Solve(input: string) returns (r: Option<nat>)
    ensures Heatmap(input).None? ==> r.None?
    ensures r.Some? ==> Heatmap(input).Some? && LeastHeatLoss(Heatmap(input).value, r.value)
    ensures r.None? && Heatmap(input).Some? ==> Unreachable(Heatmap(input).value)
  {
    var grid := Heatmap(input);
    if grid.None? {
      return None;
    }
    r := Crucible(grid.value);
  }
}
