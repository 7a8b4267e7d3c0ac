/** Day 8, part 1: following left/right instructions through a network of nodes
    "AAA = (BBB, CCC)" from "AAA" until "ZZZ". */
module Day08Part1 {
  import opened Text

  predicate IsParen(c: char) { c == '(' || c == ')' }

  /** The text without its leading parentheses. */
  function TrimParensStart(s: string): (r: string)
    ensures |r| <= |s| && r == s[|s| - |r|..]
    ensures r == [] || !IsParen(r[0])
    ensures forall k :: 0 <= k < |s| - |r| ==> IsParen(s[k])
  {
    if s != [] && IsParen(s[0]) then TrimParensStart(s[1..]) else s
  }

  /** The text without its trailing parentheses. */
  function TrimParensEnd(s: string): (r: string)
    ensures |r| <= |s| && r == s[..|r|]
    ensures r == [] || !IsParen(r[|r| - 1])
    ensures forall k :: |r| <= k < |s| ==> IsParen(s[k])
  {
    if s != [] && IsParen(s[|s| - 1]) then TrimParensEnd(s[..|s| - 1]) else s
  }

  /** `trim_matches(['(', ')'])`: the text without the parentheses at either end. */
  function TrimParens(s: string): string
  {
    TrimParensEnd(TrimParensStart(s))
  }

  /** Parentheses around a text that neither starts nor ends with one are all removed. */
  lemma TrimParensOfWrapped(inner: string)
    requires inner != [] && !IsParen(inner[0]) && !IsParen(inner[|inner| - 1])
    ensures TrimParens("(" + inner + ")") == inner
  {
    var s := "(" + inner + ")";
    assert s[1..] == inner + ")";
    var front := TrimParensStart(s);
    assert front == inner + ")" by {
      assert TrimParensStart(s) == TrimParensStart(s[1..]);
      assert (inner + ")")[0] == inner[0];
    }
    assert front[..|front| - 1] == inner;
  }

  /** `read_map_line`: "node = (left, right)" as the node and its two successors; none when
      the line has no " = " or the text after it, its parentheses trimmed, no ", ". */
  function ReadMapLine(line: string): (r: Option<(string, (string, string))>)
    ensures r.Some? ==> exists next ::
      (line == r.value.0 + " = " + next && TrimParens(next) == r.value.1.0 + ", " + r.value.1.1)
    ensures (forall j :: 0 <= j ==> !OccursAt(line, " = ", j)) ==> r.None?
  {
    match SplitOnce(line, " = ")
    case None => None
    case Some((loc, next)) =>
      match SplitOnce(TrimParens(next), ", ")
      case None => None
      case Some((left, right)) => Some((loc, (left, right)))
  }

  /** A well-formed map line reads back into its three names. */
  lemma ReadMapLineOfNode(loc: string, left: string, right: string)
    requires ' ' !in loc && ',' !in left
    requires left != [] && right != [] && !IsParen(left[0]) && !IsParen(right[|right| - 1])
    ensures ReadMapLine(loc + " = (" + left + ", " + right + ")") == Some((loc, (left, right)))
  {
    var inner := left + ", " + right;
    var next := "(" + inner + ")";
    assert loc + " = (" + left + ", " + right + ")" == loc + " = " + next;
    SplitOnceOfJoined(loc, " = ", next);
    assert inner[0] == left[0] && inner[|inner| - 1] == right[|right| - 1];
    TrimParensOfWrapped(inner);
    SplitOnceOfJoined(left, ", ", right);
  }

  /** The lines that read as map lines, in order (`filter_map(read_map_line)`). */
  function MapLines(lines: seq<string>): (r: seq<(string, (string, string))>)
    ensures |r| <= |lines|
  {
    if lines == [] then []
    else (match ReadMapLine(lines[0]) case Some(e) => [e] case None => []) + MapLines(lines[1..])
  }

  /** Collecting the entries into a map, a later entry with the same node replacing an
      earlier one. */
  function BuildMap(entries: seq<(string, (string, string))>): (m: map<string, (string, string)>)
    ensures forall k :: k in m <==> exists i :: 0 <= i < |entries| && entries[i].0 == k
  {
    if entries == [] then map[]
    else
      var last := entries[|entries| - 1];
      var rest := BuildMap(entries[..|entries| - 1]);
      assert forall i :: 0 <= i < |entries| - 1 ==> entries[..|entries| - 1][i] == entries[i];
      rest[last.0 := last.1]
  }

  /** Every node maps to the successors of its last entry. */
  lemma {:induction false} BuildMapKeepsLast(entries: seq<(string, (string, string))>, i: nat)
    requires i < |entries|
    requires forall j :: i < j < |entries| ==> entries[j].0 != entries[i].0
    ensures BuildMap(entries)[entries[i].0] == entries[i].1
  {
    if i < |entries| - 1 {
      var init := entries[..|entries| - 1];
      assert init[i] == entries[i];
      forall j | i < j < |init| ensures init[j].0 != init[i].0 {
        assert init[j] == entries[j];
      }
      BuildMapKeepsLast(init, i);
    }
  }

  /** One move: the left or right successor of a known node; none for an unknown node or
      a direction that is neither 'L' nor 'R', where the source panics. */
  function Step(network: map<string, (string, string)>, loc: string, dir: char): (r: Option<string>)
    ensures r.Some? <==> loc in network && (dir == 'L' || dir == 'R')
    ensures r.Some? && dir == 'L' ==> r.value == network[loc].0
    ensures r.Some? && dir == 'R' ==> r.value == network[loc].1
  {
    if loc !in network then None
    else if dir == 'L' then Some(network[loc].0)
    else if dir == 'R' then Some(network[loc].1)
    else None
  }

  /** The node after `n` moves from `start`, the directions repeating; none once a move
      failed. */
  function Walk(dirs: string, network: map<string, (string, string)>, start: string, n: nat): Option<string>
    requires |dirs| > 0
  {
    if n == 0 then Some(start)
    else match Walk(dirs, network, start, n - 1)
      case None => None
      case Some(loc) => Step(network, loc, dirs[(n - 1) % |dirs|])
  }

  /** Once a move fails, every later walk has failed. */
  lemma {:induction false} FailureStays(dirs: string, network: map<string, (string, string)>, start: string, a: nat, b: nat)
    requires |dirs| > 0 && a <= b && Walk(dirs, network, start, a).None?
    ensures Walk(dirs, network, start, b).None?
    decreases b
  {
    if a < b { FailureStays(dirs, network, start, a, b - 1); }
  }

  /** Whole rounds of directions do not change the position in the directions. */
  lemma ModShift(q: nat, b: nat, d: nat)
    requires d > 0
    ensures (q * d + b) % d == b % d
  {
    var k, r := b / d, b % d;
    assert b == k * d + r;
    assert q * d + b == (q + k) * d + r;
    ModOfMultiplePlus(q + k, r, d);
  }

  lemma MulAtLeast(a: int, d: nat)
    requires a >= 1
    ensures a * d >= d
  {
  }

  lemma ModOfMultiplePlus(k: nat, r: nat, d: nat)
    requires r < d
    ensures (k * d + r) % d == r
  {
    var x := k * d + r;
    var q, m := x / d, x % d;
    assert (q - k) * d == r - m;
    if q > k {
      MulAtLeast(q - k, d);
    } else if q < k {
      MulAtLeast(k - q, d);
    }
  }

  /** After a whole number of rounds of directions, the walk continues as a fresh walk from
      the node reached. */
  lemma {:induction false} WalkSplit(dirs: string, network: map<string, (string, string)>, start: string, a: nat, b: nat)
    requires |dirs| > 0 && a % |dirs| == 0 && Walk(dirs, network, start, a).Some?
    ensures Walk(dirs, network, start, a + b) == Walk(dirs, network, Walk(dirs, network, start, a).value, b)
  {
    if b > 0 {
      WalkSplit(dirs, network, start, a, b - 1);
      var q := a / |dirs|;
      assert a + b - 1 == q * |dirs| + (b - 1);
      ModShift(q, b - 1, |dirs|);
    }
  }

  /** A walk that comes back to its start after whole rounds repeats forever: every node it
      will ever reach is reached within the first round trip. */
  lemma {:induction false} LoopRepeats(dirs: string, network: map<string, (string, string)>, start: string, p: nat, k: nat, r: nat)
    requires |dirs| > 0 && p > 0 && p % |dirs| == 0 && Walk(dirs, network, start, p) == Some(start)
    ensures Walk(dirs, network, start, k * p + r) == Walk(dirs, network, start, r)
  {
    if k > 0 {
      assert k * p + r == p + ((k - 1) * p + r);
      WalkSplit(dirs, network, start, p, (k - 1) * p + r);
      LoopRepeats(dirs, network, start, p, k - 1, r);
    }
  }

  /** How the walk ends within the allowed number of moves. */
  datatype Outcome = Arrived(steps: nat) | Panicked | OutOfFuel

  /** `outcome` is the end of the walk from "AAA" within `fuel` moves: the first arrival at
      "ZZZ", a failed move before any arrival, or neither. */
  predicate Describes(dirs: string, network: map<string, (string, string)>, fuel: nat, outcome: Outcome)
    requires |dirs| > 0
  {
    match outcome
    case Arrived(steps) =>
      1 <= steps <= fuel && Walk(dirs, network, "AAA", steps) == Some("ZZZ")
      && forall k :: 1 <= k < steps ==> Walk(dirs, network, "AAA", k) != Some("ZZZ")
    case Panicked =>
      exists n :: 1 <= n <= fuel && Walk(dirs, network, "AAA", n).None?
        && forall k :: 1 <= k < n ==> Walk(dirs, network, "AAA", k) != Some("ZZZ")
    case OutOfFuel =>
      forall k :: 1 <= k <= fuel ==>
        Walk(dirs, network, "AAA", k).Some? && Walk(dirs, network, "AAA", k) != Some("ZZZ")
  }

  /** The description leaves no choice: at most one outcome fits it. */
  lemma OutcomeUnique(dirs: string, network: map<string, (string, string)>, fuel: nat, o1: Outcome, o2: Outcome)
    requires |dirs| > 0
    requires Describes(dirs, network, fuel, o1) && Describes(dirs, network, fuel, o2)
    ensures o1 == o2
  {
    if o1.Arrived? && o2.Panicked? {
      ArrivedNotPanicked(dirs, network, fuel, o1.steps);
    } else if o2.Arrived? && o1.Panicked? {
      ArrivedNotPanicked(dirs, network, fuel, o2.steps);
    }
  }

  lemma ArrivedNotPanicked(dirs: string, network: map<string, (string, string)>, fuel: nat, steps: nat)
    requires |dirs| > 0 && Describes(dirs, network, fuel, Arrived(steps))
    ensures !Describes(dirs, network, fuel, Panicked)
  {
    if Describes(dirs, network, fuel, Panicked) {
      var n :| 1 <= n <= fuel && Walk(dirs, network, "AAA", n).None?
        && forall k :: 1 <= k < n ==> Walk(dirs, network, "AAA", k) != Some("ZZZ");
      if n <= steps {
        FailureStays(dirs, network, "AAA", n, steps);
      }
    }
  }

  /** The `for` loop over the cycled directions, allowed at most `fuel` moves (the source
      loops until it arrives or panics). */
  method Navigate(dirs: string, network: map<string, (string, string)>, fuel: nat) returns (outcome: Outcome)
    requires |dirs| > 0
    ensures Describes(dirs, network, fuel, outcome)
  {
    var location := "AAA";
    var n := 0;
    while n < fuel
      invariant 0 <= n <= fuel
      invariant Walk(dirs, network, "AAA", n) == Some(location)
      invariant forall k :: 1 <= k <= n ==> Walk(dirs, network, "AAA", k) != Some("ZZZ")
      invariant forall k :: 1 <= k <= n ==> Walk(dirs, network, "AAA", k).Some?
    {
      var next := Step(network, location, dirs[n % |dirs|]);
      if next.None? {
        assert Walk(dirs, network, "AAA", n + 1).None?;
        return Panicked;
      }
      location := next.value;
      n := n + 1;
      if location == "ZZZ" {
        return Arrived(n);
      }
    }
    return OutOfFuel;
  }

  /** The network read from the map lines after the directions and the blank line. */
  function Network(lines: seq<string>): map<string, (string, string)>
  {
    BuildMap(MapLines(if |lines| < 2 then [] else lines[2..]))
  }

  /** `solve`: the number of moves from "AAA" to "ZZZ"; panicked when the input has no line
      or no directions (the cycle is then empty). */
  method Solve(input: string, fuel: nat) returns (outcome: Outcome)
    ensures Lines(input) == [] || Lines(input)[0] == [] ==> outcome == Panicked
    ensures Lines(input) != [] && Lines(input)[0] != [] ==>
      Describes(Lines(input)[0], Network(Lines(input)), fuel, outcome)
  {
    var lines := Lines(input);
    if lines == [] || lines[0] == [] {
      return Panicked;
    }
    outcome := Navigate(lines[0], Network(lines), fuel);
  }
}
