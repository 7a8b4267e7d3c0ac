/** Day 22, part 1: sand bricks falling into a stack. A line reads "x,y,z~x,y,z", the
    two corner cubes of a brick; the stack is sorted by height and each brick in turn drops
    until it rests on a brick below or on the ground (z = 1). A brick is safe to
    disintegrate when every brick it holds up is held up by another one as well. */
module Day22Part1 {
  import opened Text

  /** `Range<usize>`: the half-open interval `start..end`. */
  datatype Span = Span(start: nat, end: nat)

  datatype Brick = Brick(x: Span, y: Span, z: Span)

  predicate In(s: Span, v: int)
  {
    s.start <= v < s.end
  }

  /** The two intervals intersect, as the range comparisons of the source test. */
  predicate Overlaps(a: Span, b: Span)
  {
    a.start < b.end && a.end > b.start
  }

  /** Two intervals overlap exactly when some value lies in both. */
  lemma OverlapsShared(a: Span, b: Span)
    requires a.start < a.end && b.start < b.end
    ensures Overlaps(a, b) <==> exists v :: In(a, v) && In(b, v)
  {
    if Overlaps(a, b) {
      var v := if a.start < b.start then b.start else a.start;
      assert In(a, v) && In(b, v);
    }
  }

  /** The footprints of two bricks seen from above share a cell. */
  predicate Beneath(a: Brick, b: Brick)
  {
    Overlaps(a.x, b.x) && Overlaps(a.y, b.y)
  }

  /** A brick parsed from a line has cubes on every axis. */
  predicate Proper(b: Brick)
  {
    b.x.start < b.x.end && b.y.start < b.y.end && b.z.start < b.z.end
  }

  /** The interval from the smaller to the larger coordinate, both included. */
  function SpanOf(a: nat, b: nat): (s: Span)
    ensures s.start < s.end
  {
    if a <= b then Span(a, b + 1) else Span(b, a + 1)
  }

  /** `a.min(b)..a.max(b) + 1` holds exactly the values between the two, both included. */
  lemma SpanOfHolds(a: nat, b: nat, v: int)
    ensures In(SpanOf(a, b), v) <==> (a <= v <= b || b <= v <= a)
  {
  }

  /** The first three comma-separated numbers, the only ones the zipped iterators read. */
  function ParseCorner(s: string): (r: Option<(nat, nat, nat)>)
    ensures r.Some? ==> |Split(s, ",")| >= 3
  {
    var parts := Split(s, ",");
    if |parts| < 3 then None
    else match (ParseNat(parts[0]), ParseNat(parts[1]), ParseNat(parts[2]))
      case (Some(a), Some(b), Some(c)) => Some((a, b, c))
      case _ => None
  }

  /** `Brick::parse`: the two corners around the first '~'; `None` where the source
      unwraps nothing (no '~', fewer than three numbers on a side, or one that is no
      number). */
  function ParseBrick(line: string): (r: Option<Brick>)
    ensures r.Some? ==> Proper(r.value)
  {
    match SplitOnce(line, "~")
    case None => None
    case Some((lhs, rhs)) =>
      match (ParseCorner(lhs), ParseCorner(rhs))
      case (Some((x1, y1, z1)), Some((x2, y2, z2))) =>
        Some(Brick(SpanOf(x1, x2), SpanOf(y1, y2), SpanOf(z1, z2)))
      case _ => None
  }

  /** Printing a corner and a line of two corners, the inverse of parsing. */
  function CornerText(a: nat, b: nat, c: nat): string
  {
    Join([NatToString(a), NatToString(b), NatToString(c)], ",")
  }

  function CornersText(p: (nat, nat, nat), q: (nat, nat, nat)): string
  {
    CornerText(p.0, p.1, p.2) + "~" + CornerText(q.0, q.1, q.2)
  }

  lemma NoCommaInNumber(n: nat)
    ensures ',' !in NatToString(n) && '~' !in NatToString(n)
  {
    var t := NatToString(n);
    assert forall i :: 0 <= i < |t| ==> IsDigit(t[i]);
  }

  lemma SplitCornerText(a: nat, b: nat, c: nat)
    ensures Split(CornerText(a, b, c), ",") == [NatToString(a), NatToString(b), NatToString(c)]
  {
    NoCommaInNumber(a);
    NoCommaInNumber(b);
    NoCommaInNumber(c);
    SplitOfJoin([NatToString(a), NatToString(b), NatToString(c)], ",");
  }

  lemma ParseCornerText(a: nat, b: nat, c: nat)
    ensures '~' !in CornerText(a, b, c)
    ensures ParseCorner(CornerText(a, b, c)) == Some((a, b, c))
  {
    NoCommaInNumber(a);
    NoCommaInNumber(b);
    NoCommaInNumber(c);
    SplitCornerText(a, b, c);
    ParseNatOfNatToString(a);
    ParseNatOfNatToString(b);
    ParseNatOfNatToString(c);
  }

  /** Two corners around a '~' parse into the brick between them. */
  lemma ParseBrickOf(lhs: string, rhs: string, p: (nat, nat, nat), q: (nat, nat, nat))
    requires '~' !in lhs && ParseCorner(lhs) == Some(p) && ParseCorner(rhs) == Some(q)
    ensures ParseBrick(lhs + "~" + rhs) == Some(Brick(SpanOf(p.0, q.0), SpanOf(p.1, q.1), SpanOf(p.2, q.2)))
  {
    SplitOnceOfJoined(lhs, "~", rhs);
  }

  /** The line of two corners parses into the brick they span. */
  lemma ParseBrickText(p: (nat, nat, nat), q: (nat, nat, nat))
    ensures ParseBrick(CornersText(p, q)) ==
      Some(Brick(SpanOf(p.0, q.0), SpanOf(p.1, q.1), SpanOf(p.2, q.2)))
  {
    ParseCornerText(p.0, p.1, p.2);
    ParseCornerText(q.0, q.1, q.2);
    ParseBrickOf(CornerText(p.0, p.1, p.2), CornerText(q.0, q.1, q.2), p, q);
  }

  /** `is_supporting`: `a`'s top is level with `b`'s bottom and their footprints share a
      cell. */
  predicate IsSupporting(a: Brick, b: Brick)
  {
    a.z.end == b.z.start && Beneath(a, b)
  }

  /** A brick holds another up exactly when it touches it from below in a common column. */
  lemma SupportingShares(a: Brick, b: Brick)
    requires Proper(a) && Proper(b)
    ensures IsSupporting(a, b) <==> (a.z.end == b.z.start &&
      exists u, v :: In(a.x, u) && In(b.x, u) && In(a.y, v) && In(b.y, v))
  {
    OverlapsShared(a.x, b.x);
    OverlapsShared(a.y, b.y);
    if a.z.end == b.z.start && exists u, v :: In(a.x, u) && In(b.x, u) && In(a.y, v) && In(b.y, v) {
      var u, v :| In(a.x, u) && In(b.x, u) && In(a.y, v) && In(b.y, v);
      assert Overlaps(a.x, b.x) && Overlaps(a.y, b.y);
    }
  }

  /** `drop_distance`: how far `b` can fall before it lands on `o`, for an `o` below it in
      a shared column; `None` otherwise. */
  function DropDistance(b: Brick, o: Brick): (r: Option<nat>)
    ensures r.Some? <==> o.z.end <= b.z.start && Beneath(b, o)
    ensures r.Some? ==> r.value <= b.z.start
  {
    if b.z.start >= o.z.end && Beneath(b, o) then Some(b.z.start - o.z.end) else None
  }

  /** `b` moved down by `d`. */
  function Lower(b: Brick, d: nat): (r: Brick)
    requires d <= b.z.start && d <= b.z.end
  {
    b.(z := Span(b.z.start - d, b.z.end - d))
  }

  /** `l` is `b` lowered: the same footprint and height, no higher. */
  predicate LoweredFrom(l: Brick, b: Brick)
  {
    l.x == b.x && l.y == b.y && l.z.start <= b.z.start && l.z.end - l.z.start == b.z.end - b.z.start
  }

  /** Dropping by exactly the drop distance lands `b` on `o`; dropping less keeps it above
      with the rest of the distance to go. */
  lemma DropOnto(b: Brick, o: Brick, d: nat, e: nat)
    requires b.z.start <= b.z.end && DropDistance(b, o) == Some(d) && e <= d
    ensures IsSupporting(o, Lower(b, d))
    ensures DropDistance(Lower(b, e), o) == Some(d - e)
  {
  }

  /** A brick with cubes is never below itself. */
  lemma NoDropOntoSelf(b: Brick)
    requires b.z.start < b.z.end
    ensures DropDistance(b, b).None?
  {
  }

  /** The smallest drop distance from `b` to a brick of `s` (`filter_map` then `min`). */
  function MinDrop(b: Brick, s: seq<Brick>): (r: Option<nat>)
    ensures r.None? <==> forall k :: 0 <= k < |s| ==> DropDistance(b, s[k]).None?
    ensures r.Some? ==> exists k :: 0 <= k < |s| && DropDistance(b, s[k]) == r
    ensures r.Some? ==> forall k :: 0 <= k < |s| && DropDistance(b, s[k]).Some? ==>
      r.value <= DropDistance(b, s[k]).value
  {
    if s == [] then None
    else
      var rest, here := MinDrop(b, s[1..]), DropDistance(b, s[0]);
      assert forall k :: 1 <= k < |s| ==> s[k] == s[1..][k - 1];
      assert rest.Some? ==> exists k :: 1 <= k < |s| && DropDistance(b, s[k]) == rest;
      if here.None? || (rest.Some? && rest.value < here.value) then rest else here
  }

  // Sorting by the bottom height (`sort_by_key`).

  predicate SortedByBottom(s: seq<Brick>)
  {
    forall i, j :: 0 <= i < j < |s| ==> s[i].z.start <= s[j].z.start
  }

  /** `b` placed into `t` before the first brick that is not lower. */
  function Insert(b: Brick, t: seq<Brick>): (r: seq<Brick>)
    ensures multiset(r) == multiset(t) + multiset{b} && |r| == |t| + 1
  {
    if t == [] || b.z.start <= t[0].z.start then [b] + t
    else
      assert t == [t[0]] + t[1..];
      [t[0]] + Insert(b, t[1..])
  }

  /** Inserting into a sorted stack keeps it sorted. */
  lemma {:induction false} InsertSorted(b: Brick, t: seq<Brick>)
    requires SortedByBottom(t)
    ensures SortedByBottom(Insert(b, t))
  {
    if t != [] && b.z.start > t[0].z.start {
      var rest := Insert(b, t[1..]);
      InsertSorted(b, t[1..]);
      forall k | 0 <= k < |rest| ensures t[0].z.start <= rest[k].z.start {
        assert rest[k] in multiset(t[1..]) + multiset{b};
        if rest[k] != b {
          assert rest[k] in t[1..];
        }
      }
    }
  }

  /** The bricks sorted by their bottom height, a permutation of them. */
  function SortByBottom(s: seq<Brick>): (r: seq<Brick>)
    ensures multiset(r) == multiset(s) && |r| == |s|
    ensures SortedByBottom(r)
  {
    if s == [] then []
    else
      assert s == [s[0]] + s[1..];
      InsertSorted(s[0], SortByBottom(s[1..]));
      Insert(s[0], SortByBottom(s[1..]))
  }

  // Settling (`settle_stack`).

  /** One turn of the loop of `settle_stack`: brick `n` drops by the smallest distance to a
      brick below it, or to the ground when there is none. Only brick `n` changes, and it is
      lowered. */
  function SettleOne(s: seq<Brick>, n: nat): (r: seq<Brick>)
    requires n < |s| && s[n].z.start < s[n].z.end
    ensures |r| == |s| && forall m :: 0 <= m < |s| && m != n ==> r[m] == s[m]
    ensures LoweredFrom(r[n], s[n]) && r[n].z.start < r[n].z.end
  {
    var b := s[n];
    match MinDrop(b, s)
    case Some(d) => s[n := Lower(b, d)]
    case None => if b.z.start > 1 then s[n := Lower(b, b.z.start - 1)] else s
  }

  /** A brick that has nothing below it lands on the ground (z = 1), or stays where it
      is when it is already that low. */
  lemma SettleOneGround(s: seq<Brick>, n: nat)
    requires n < |s| && s[n].z.start < s[n].z.end && MinDrop(s[n], s).None?
    ensures SettleOne(s, n)[n].z.start == (if s[n].z.start > 1 then 1 else s[n].z.start)
  {
  }

  /** A brick with something below it lands on a brick it could have hit, and stays above
      every other such brick. */
  lemma SettleOneLands(s: seq<Brick>, n: nat) returns (k: nat)
    requires n < |s| && s[n].z.start < s[n].z.end && MinDrop(s[n], s).Some?
    ensures k < |s| && DropDistance(s[n], s[k]).Some? && IsSupporting(s[k], SettleOne(s, n)[n])
    ensures forall j :: 0 <= j < |s| && DropDistance(s[n], s[j]).Some? ==>
      DropDistance(SettleOne(s, n)[n], s[j]).Some?
  {
    var b := s[n];
    var r := SettleOne(s, n);
    var d := MinDrop(b, s).value;
    k :| 0 <= k < |s| && DropDistance(b, s[k]) == Some(d);
    DropOnto(b, s[k], d, d);
    forall j | 0 <= j < |s| && DropDistance(b, s[j]).Some?
      ensures DropDistance(r[n], s[j]).Some?
    {
      DropOnto(b, s[j], DropDistance(b, s[j]).value, d);
    }
  }

  /** The stack after the first `n` turns of the loop. */
  function SettleSteps(s: seq<Brick>, n: nat): (r: seq<Brick>)
    requires n <= |s| && forall i :: 0 <= i < |s| ==> s[i].z.start < s[i].z.end
    ensures |r| == |s| && forall i :: 0 <= i < |s| ==> r[i].z.start < r[i].z.end
  {
    if n == 0 then s else SettleOne(SettleSteps(s, n - 1), n - 1)
  }

  predicate AllProper(s: seq<Brick>)
  {
    forall i :: 0 <= i < |s| ==> Proper(s[i])
  }

  lemma SortedProper(s: seq<Brick>)
    requires AllProper(s)
    ensures AllProper(SortByBottom(s))
  {
    var t := SortByBottom(s);
    forall i | 0 <= i < |t| ensures Proper(t[i]) {
      assert t[i] in multiset(s);
    }
  }

  /** `settle_stack` on the bricks of the input: sorted, then every brick settled in turn. */
  function Settle(s: seq<Brick>): (r: seq<Brick>)
    requires AllProper(s)
    ensures |r| == |s|
  {
    SortedProper(s);
    SettleSteps(SortByBottom(s), |s|)
  }

  /** Brick `m` rests on the ground or on a brick that comes before it. */
  predicate Rests(s: seq<Brick>, m: nat)
    requires m < |s|
  {
    s[m].z.start <= 1 || exists k :: 0 <= k < m && IsSupporting(s[k], s[m])
  }

  /** In a sorted stack a later brick with cubes is never below an earlier one. */
  lemma LaterNotBelow(t: seq<Brick>, n: nat, k: nat)
    requires SortedByBottom(t) && n < |t| && k < |t| && t[k].z.start < t[k].z.end
    ensures n < k ==> DropDistance(t[n], t[k]).None?
  {
  }

  /** No turn takes a brick below z = 1 that was not already there. */
  lemma SettleOneAboveGround(s: seq<Brick>, n: nat)
    requires n < |s| && s[n].z.start >= 1 && forall i :: 0 <= i < |s| ==> s[i].z.start < s[i].z.end
    ensures SettleOne(s, n)[n].z.start >= 1
  {
    if MinDrop(s[n], s).None? {
      SettleOneGround(s, n);
    } else {
      var k := SettleOneLands(s, n);
      assert s[k].z.start < s[k].z.end;
    }
  }

  lemma {:induction false} SettleStepsAboveGround(t: seq<Brick>, n: nat)
    requires n <= |t| && forall i :: 0 <= i < |t| ==> 1 <= t[i].z.start < t[i].z.end
    ensures forall m :: 0 <= m < |t| ==> SettleSteps(t, n)[m].z.start >= 1
  {
    if n > 0 {
      SettleStepsAboveGround(t, n - 1);
      SettleOneAboveGround(SettleSteps(t, n - 1), n - 1);
    }
  }

  /** Bricks that start at z = 1 or higher end at z = 1 or higher. */
  lemma SettleAboveGround(s: seq<Brick>)
    requires AllProper(s) && forall i :: 0 <= i < |s| ==> s[i].z.start >= 1
    ensures forall m :: 0 <= m < |s| ==> Settle(s)[m].z.start >= 1
  {
    SortedProper(s);
    var t := SortByBottom(s);
    forall i | 0 <= i < |t| ensures 1 <= t[i].z.start < t[i].z.end {
      assert t[i] in multiset(s);
    }
    SettleStepsAboveGround(t, |s|);
  }

  /** A turn for brick `n` keeps every brick before it resting. */
  lemma SettleOneKeepsRest(s: seq<Brick>, n: nat, m: nat)
    requires n < |s| && s[n].z.start < s[n].z.end && m < n && Rests(s, m)
    ensures Rests(SettleOne(s, n), m)
  {
    var u := SettleOne(s, n);
    if s[m].z.start > 1 {
      var k :| 0 <= k < m && IsSupporting(s[k], s[m]);
      assert IsSupporting(u[k], u[m]);
    }
  }

  /** When no brick from `n` on is below brick `n`, its turn leaves it resting. */
  lemma SettleOneRests(s: seq<Brick>, n: nat)
    requires n < |s| && s[n].z.start < s[n].z.end
    requires forall k :: n < k < |s| ==> DropDistance(s[n], s[k]).None?
    ensures Rests(SettleOne(s, n), n)
  {
    var u := SettleOne(s, n);
    if MinDrop(s[n], s).None? {
      SettleOneGround(s, n);
    } else {
      var k := SettleOneLands(s, n);
      NoDropOntoSelf(s[n]);
      assert k < n && IsSupporting(u[k], u[n]);
    }
  }

  /** After `n` turns the bricks from `n` on are untouched and every brick before `n`
      rests. */
  lemma {:induction false} SettleStepsRest(t: seq<Brick>, n: nat)
    requires n <= |t| && SortedByBottom(t) && forall i :: 0 <= i < |t| ==> t[i].z.start < t[i].z.end
    ensures forall m :: n <= m < |t| ==> SettleSteps(t, n)[m] == t[m]
    ensures forall m :: 0 <= m < n ==> Rests(SettleSteps(t, n), m)
  {
    if n > 0 {
      var prev := SettleSteps(t, n - 1);
      SettleStepsRest(t, n - 1);
      forall m | 0 <= m < n - 1 ensures Rests(SettleSteps(t, n), m) {
        SettleOneKeepsRest(prev, n - 1, m);
      }
      forall k | n - 1 < k < |t| ensures DropDistance(prev[n - 1], prev[k]).None? {
        LaterNotBelow(t, n - 1, k);
      }
      SettleOneRests(prev, n - 1);
    }
  }

  /** After `n` turns every brick is the sorted brick at its place, lowered. */
  lemma {:induction false} SettleStepsLowered(t: seq<Brick>, n: nat)
    requires n <= |t| && forall i :: 0 <= i < |t| ==> t[i].z.start < t[i].z.end
    ensures forall m :: 0 <= m < |t| ==> LoweredFrom(SettleSteps(t, n)[m], t[m])
  {
    if n > 0 {
      SettleStepsLowered(t, n - 1);
    }
  }

  /** Settling sorts the bricks by height and lowers each without moving it sideways or
      changing its height. */
  lemma SettleLowers(s: seq<Brick>)
    requires AllProper(s)
    ensures forall m :: 0 <= m < |s| ==> LoweredFrom(Settle(s)[m], SortByBottom(s)[m])
  {
    SortedProper(s);
    SettleStepsLowered(SortByBottom(s), |s|);
  }

  /** After settling every brick rests on the ground or on a brick before it. */
  lemma SettleRests(s: seq<Brick>)
    requires AllProper(s)
    ensures forall m :: 0 <= m < |s| ==> Rests(Settle(s), m)
  {
    SortedProper(s);
    SettleStepsRest(SortByBottom(s), |s|);
  }

  /** One turn of the loop of `settle_stack`, in place. */
  method SettleBrick(stack: array<Brick>, n: nat)
    requires n < stack.Length && stack[n].z.start < stack[n].z.end
    modifies stack
    ensures stack[..] == SettleOne(old(stack[..]), n)
  {
    var b := stack[n];
    match MinDrop(b, stack[..]) {
      case Some(d) =>
        stack[n] := Lower(b, d);
      case None =>
        if b.z.start > 1 {
          stack[n] := Lower(b, b.z.start - 1);
        }
    }
  }

  /** `sort_by_key` on the bottom heights, in place. */
  method Sort(stack: array<Brick>)
    modifies stack
    ensures stack[..] == SortByBottom(old(stack[..]))
  {
    var sorted := SortByBottom(stack[..]);
    forall i | 0 <= i < stack.Length {
      stack[i] := sorted[i];
    }
  }

  /** `settle_stack`, in place: the sort, then the loop over the positions. */
  method SettleStack(stack: array<Brick>)
    requires AllProper(stack[..])
    modifies stack
    ensures stack[..] == Settle(old(stack[..]))
  {
    var sorted := SortByBottom(stack[..]);
    SortedProper(stack[..]);
    Sort(stack);
    for n := 0 to stack.Length
      invariant stack[..] == SettleSteps(sorted, n)
    {
      SettleBrick(stack, n);
    }
  }

  // Disintegration.

  /** `count_supporters`: how many bricks of `s` hold `c` up. */
  function Supporters(c: Brick, s: seq<Brick>): (r: nat)
    ensures r <= |s|
    ensures r == 0 <==> forall j :: 0 <= j < |s| ==> !IsSupporting(s[j], c)
  {
    if s == [] then 0
    else
      assert forall j :: 1 <= j < |s| ==> s[j] == s[1..][j - 1];
      (if IsSupporting(s[0], c) then 1 else 0) + Supporters(c, s[1..])
  }

  /** A brick held up by brick `i` has more than one supporter exactly when a brick at
      another place holds it up too. */
  lemma {:induction false} SupportersMoreThanOne(c: Brick, s: seq<Brick>, i: nat)
    requires i < |s| && IsSupporting(s[i], c)
    ensures Supporters(c, s) > 1 <==> exists j :: 0 <= j < |s| && j != i && IsSupporting(s[j], c)
  {
    assert forall j :: 1 <= j < |s| ==> s[j] == s[1..][j - 1];
    if i > 0 {
      SupportersMoreThanOne(c, s[1..], i - 1);
      if IsSupporting(s[0], c) {
        assert Supporters(c, s[1..]) > 0;
      }
      if exists j :: 0 <= j < |s| && j != i && IsSupporting(s[j], c) {
        var j :| 0 <= j < |s| && j != i && IsSupporting(s[j], c);
        if j > 0 {
          assert s[1..][j - 1] == s[j];
        }
      }
    }
  }

  /** The bricks of `t` that `b` holds up all have more than one supporter in `s` (the
      `filter` and `all` of `is_safe_to_disintegrate`). */
  function AllHeldElsewhere(b: Brick, t: seq<Brick>, s: seq<Brick>): (r: bool)
    ensures r <==> forall k :: 0 <= k < |t| && IsSupporting(b, t[k]) ==> Supporters(t[k], s) > 1
  {
    if t == [] then true
    else
      assert forall k :: 1 <= k < |t| ==> t[k] == t[1..][k - 1];
      (!IsSupporting(b, t[0]) || Supporters(t[0], s) > 1) && AllHeldElsewhere(b, t[1..], s)
  }

  /** `is_safe_to_disintegrate`. */
  predicate IsSafe(b: Brick, s: seq<Brick>)
  {
    AllHeldElsewhere(b, s, s)
  }

  /** Brick `i` is safe to disintegrate exactly when every brick it holds up is also held
      up by a brick at another place. */
  lemma IsSafeIff(s: seq<Brick>, i: nat)
    requires i < |s|
    ensures IsSafe(s[i], s) <==> forall k :: 0 <= k < |s| && IsSupporting(s[i], s[k]) ==>
      exists j :: 0 <= j < |s| && j != i && IsSupporting(s[j], s[k])
  {
    forall k | 0 <= k < |s| && IsSupporting(s[i], s[k])
      ensures Supporters(s[k], s) > 1 <==> exists j :: 0 <= j < |s| && j != i && IsSupporting(s[j], s[k])
    {
      SupportersMoreThanOne(s[k], s, i);
    }
  }

  /** A brick that holds nothing up is safe. */
  lemma TopIsSafe(b: Brick, s: seq<Brick>)
    requires forall k :: 0 <= k < |s| ==> !IsSupporting(b, s[k])
    ensures IsSafe(b, s)
  {
  }

  /** How many bricks of `t` are safe to disintegrate from the stack `s`. */
  function CountSafe(t: seq<Brick>, s: seq<Brick>): (r: nat)
    ensures r <= |t|
  {
    if t == [] then 0 else (if IsSafe(t[0], s) then 1 else 0) + CountSafe(t[1..], s)
  }

  /** Every brick of the stack on its own line, each with cubes on every axis. */
  function ParseBricks(lines: seq<string>): (r: Option<seq<Brick>>)
    ensures r.Some? ==> |r.value| == |lines| && AllProper(r.value)
    ensures r.Some? ==> forall i :: 0 <= i < |lines| ==> ParseBrick(lines[i]) == Some(r.value[i])
    ensures r.None? <==> exists i :: 0 <= i < |lines| && ParseBrick(lines[i]).None?
  {
    ParseEach(lines, ParseBrick)
  }

  /** The brick with the highest top. */
  function Highest(s: seq<Brick>): (i: nat)
    requires s != []
    ensures i < |s| && forall k :: 0 <= k < |s| ==> s[k].z.end <= s[i].z.end
  {
    if |s| == 1 then 0
    else
      var j := 1 + Highest(s[1..]);
      assert forall k :: 1 <= k < |s| ==> s[k] == s[1..][k - 1];
      if s[0].z.end >= s[j].z.end then 0 else j
  }

  /** The brick with the highest top holds nothing up, so it is safe. */
  lemma HighestIsSafe(s: seq<Brick>)
    requires AllProper(s) && s != []
    ensures IsSafe(s[Highest(s)], s)
  {
    var h := Highest(s);
    forall k | 0 <= k < |s| ensures !IsSupporting(s[h], s[k]) {
      assert Proper(s[k]);
    }
    TopIsSafe(s[h], s);
  }

  lemma {:induction false} CountSafeAtLeastOne(t: seq<Brick>, s: seq<Brick>, i: nat)
    requires i < |t| && IsSafe(t[i], s)
    ensures CountSafe(t, s) >= 1
  {
    if i > 0 {
      assert t[1..][i - 1] == t[i];
      CountSafeAtLeastOne(t[1..], s, i - 1);
    }
  }

  /** Settled bricks still have cubes on every axis. */
  lemma SettledProper(s: seq<Brick>)
    requires AllProper(s)
    ensures AllProper(Settle(s))
  {
    SortedProper(s);
    SettleLowers(s);
    var t := SortByBottom(s);
    forall m | 0 <= m < |s| ensures Proper(Settle(s)[m]) {
      assert Proper(t[m]);
    }
  }

  /** The answer of part 1 for parsed bricks: how many of the settled bricks are safe. */
  function SafeCount(bricks: seq<Brick>): (r: nat)
    requires AllProper(bricks)
    ensures r <= |bricks|
  {
    var settled := Settle(bricks);
    CountSafe(settled, settled)
  }

  /** A non-empty stack always has a brick that is safe to disintegrate: the highest. */
  lemma SafeCountPositive(bricks: seq<Brick>)
    requires AllProper(bricks) && bricks != []
    ensures SafeCount(bricks) >= 1
  {
    var settled := Settle(bricks);
    SettledProper(bricks);
    HighestIsSafe(settled);
    CountSafeAtLeastOne(settled, settled, Highest(settled));
  }

  /** Settling the parsed bricks in place and counting the safe ones. */
  method SafeCountOf(bricks: seq<Brick>) returns (n: nat)
    requires AllProper(bricks)
    ensures n == SafeCount(bricks)
  {
    var stack := new Brick[|bricks|](i requires 0 <= i < |bricks| => bricks[i]);
    assert stack[..] == bricks;
    SettleStack(stack);
    n := CountSafe(stack[..], stack[..]);
  }

  /** `solve`: none when a line is no brick (the source panics), else the number of safe
      bricks. */
  method Solve(input: string) returns (r: Option<nat>)
    ensures r.None? <==> ParseBricks(Lines(input)).None?
    ensures r.Some? ==> r.value == SafeCount(ParseBricks(Lines(input)).value)
  {
    var bricks := ParseBricks(Lines(input));
    if bricks.None? {
      return None;
    }
    var n := SafeCountOf(bricks.value);
    return Some(n);
  }
}
