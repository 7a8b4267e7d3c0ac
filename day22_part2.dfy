/** Day 22, part 2: the chain reaction of disintegrating one brick of the settled stack.
    The bricks above the ground are visited in stack order; each one that no brick still
    standing holds up falls too. The stack is parsed and settled as in part 1. */
module Day22Part2 {
  import opened Text
  import opened Day22Part1

  /** `is_supported`: a brick of the stack that has not fallen holds `b` up. */
  function IsSupported(b: Brick, s: seq<Brick>, removed: set<Brick>): (r: bool)
    ensures r <==> exists k :: 0 <= k < |s| && s[k] !in removed && IsSupporting(s[k], b)
  {
    if s == [] then false
    else
      assert forall k :: 1 <= k < |s| ==> s[k] == s[1..][k - 1];
      (s[0] !in removed && IsSupporting(s[0], b)) || IsSupported(b, s[1..], removed)
  }

  /** Removing more bricks never gives a brick more support. */
  lemma SupportedAntitone(b: Brick, s: seq<Brick>, fewer: set<Brick>, more: set<Brick>)
    requires fewer <= more
    ensures IsSupported(b, s, more) ==> IsSupported(b, s, fewer)
  {
  }

  /** The fold of `chain_reaction_count` over the bricks `t`, from the bricks already
      fallen: a brick above the ground (z > 1) that nothing standing holds up falls. The
      fallen bricks only grow; every brick that falls was above the ground and had all its
      supporters fallen; and a brick above the ground whose supporters had all fallen from
      the start falls. */
  function Cascade(t: seq<Brick>, s: seq<Brick>, removed: set<Brick>): (r: set<Brick>)
    ensures removed <= r
    ensures forall c :: c in r && c !in removed ==> c in t && c.z.start > 1
    ensures forall c :: c in r && c !in removed ==>
      forall k :: 0 <= k < |s| && IsSupporting(s[k], c) ==> s[k] in r
    ensures forall i :: (0 <= i < |t| && t[i].z.start > 1 &&
      forall k :: 0 <= k < |s| && IsSupporting(s[k], t[i]) ==> s[k] in removed) ==> t[i] in r
  {
    if t == [] then removed
    else
      var b := t[0];
      var next := if b.z.start > 1 && !IsSupported(b, s, removed) then removed + {b} else removed;
      var r := Cascade(t[1..], s, next);
      assert forall i :: 1 <= i < |t| ==> t[i] == t[1..][i - 1];
      assert forall c :: c in r && c !in next ==> c in t;
      r
  }

  /** `chain_reaction_count`: how many other bricks fall when `b` is disintegrated. */
  function ChainReactionCount(b: Brick, s: seq<Brick>): (r: nat)
    ensures r == |Cascade(s, s, {b}) - {b}|
  {
    var fallen := Cascade(s, s, {b});
    assert fallen == (fallen - {b}) + {b};
    |fallen| - 1
  }

  /** Only bricks of the stack above the ground fall, and `b` is not counted. */
  lemma FallenAboveGround(b: Brick, s: seq<Brick>, c: Brick)
    requires c in Cascade(s, s, {b}) && c != b
    ensures c in s && c.z.start > 1
  {
  }

  /** The stack as part 1 leaves it: bricks with cubes, all distinct, none below z = 1,
      each resting on the ground or on a brick before it. */
  predicate SettledStack(s: seq<Brick>)
  {
    AllProper(s) &&
    (forall i, j :: 0 <= i < j < |s| ==> s[i] != s[j]) &&
    (forall i :: 0 <= i < |s| ==> s[i].z.start >= 1) &&
    (forall m :: 0 <= m < |s| ==> Rests(s, m))
  }

  /** When brick `i` is safe, every brick of the stack above the ground is still held up
      once brick `i` is gone. */
  lemma SafeLeavesSupported(s: seq<Brick>, i: nat, c: Brick)
    requires SettledStack(s) && i < |s| && IsSafe(s[i], s)
    requires c in s && c.z.start > 1
    ensures IsSupported(c, s, {s[i]})
  {
    var m :| 0 <= m < |s| && s[m] == c;
    assert Rests(s, m);
    var k :| 0 <= k < m && IsSupporting(s[k], s[m]);
    if k == i {
      IsSafeIff(s, i);
      var j :| 0 <= j < |s| && j != i && IsSupporting(s[j], s[m]);
      assert s[j] !in {s[i]};
    } else {
      assert s[k] !in {s[i]};
    }
  }

  /** When brick `i` is safe to disintegrate nothing in `t` falls. */
  lemma {:induction false} SafeCascade(s: seq<Brick>, i: nat, t: seq<Brick>)
    requires SettledStack(s) && i < |s| && IsSafe(s[i], s)
    requires forall j :: 0 <= j < |t| ==> t[j] in s
    ensures Cascade(t, s, {s[i]}) == {s[i]}
  {
    if t != [] {
      if t[0].z.start > 1 {
        assert t[0] in s;
        SafeLeavesSupported(s, i, t[0]);
      }
      assert forall j :: 0 <= j < |t[1..]| ==> t[1..][j] == t[j + 1];
      SafeCascade(s, i, t[1..]);
    }
  }

  /** A brick that is not safe holds up a brick that no brick at another place holds up. */
  lemma UnsafeWitness(s: seq<Brick>, i: nat) returns (k: nat)
    requires i < |s| && !IsSafe(s[i], s)
    ensures k < |s| && IsSupporting(s[i], s[k])
    ensures forall j :: 0 <= j < |s| && IsSupporting(s[j], s[k]) ==> j == i
  {
    IsSafeIff(s, i);
    k :| 0 <= k < |s| && IsSupporting(s[i], s[k]) &&
      !exists j :: 0 <= j < |s| && j != i && IsSupporting(s[j], s[k]);
  }

  /** When brick `i` is not safe, a brick it alone holds up falls with it. */
  lemma UnsafeCascade(s: seq<Brick>, i: nat)
    requires SettledStack(s) && i < |s| && !IsSafe(s[i], s)
    ensures ChainReactionCount(s[i], s) >= 1
  {
    var k := UnsafeWitness(s, i);
    assert Proper(s[i]) && s[i].z.start >= 1;
    assert forall j :: 0 <= j < |s| && IsSupporting(s[j], s[k]) ==> s[j] in {s[i]};
    var fallen := Cascade(s, s, {s[i]});
    assert s[k] in fallen && s[k] != s[i];
    HasMember(fallen - {s[i]}, s[k]);
  }

  lemma HasMember<T>(a: set<T>, x: T)
    requires x in a
    ensures |a| >= 1
  {
    assert a != {};
  }

  /** On a settled stack the two parts agree: disintegrating a brick makes nothing else
      fall exactly when part 1 calls it safe. */
  lemma ChainReactionIffUnsafe(s: seq<Brick>, i: nat)
    requires SettledStack(s) && i < |s|
    ensures ChainReactionCount(s[i], s) == 0 <==> IsSafe(s[i], s)
  {
    if IsSafe(s[i], s) {
      SafeCascade(s, i, s);
    } else {
      UnsafeCascade(s, i);
    }
  }

  /** The chain reaction counts of the bricks of `t` added up. */
  function TotalFalls(t: seq<Brick>, s: seq<Brick>): nat
  {
    if t == [] then 0 else ChainReactionCount(t[0], s) + TotalFalls(t[1..], s)
  }

  /** The answer of part 2 for parsed bricks. */
  function ChainTotal(bricks: seq<Brick>): nat
    requires AllProper(bricks)
  {
    var settled := Settle(bricks);
    TotalFalls(settled, settled)
  }

  /** Every brick that is not safe adds at least one to the total. */
  lemma {:induction false} TotalFallsAtLeast(t: seq<Brick>, s: seq<Brick>)
    requires SettledStack(s) && forall j :: 0 <= j < |t| ==> t[j] in s
    ensures TotalFalls(t, s) >= |t| - CountSafe(t, s)
  {
    if t != [] {
      assert forall j :: 0 <= j < |t[1..]| ==> t[1..][j] == t[j + 1];
      TotalFallsAtLeast(t[1..], s);
      assert t[0] in s;
      var i :| 0 <= i < |s| && s[i] == t[0];
      if !IsSafe(t[0], s) {
        UnsafeCascade(s, i);
      }
    }
  }

  /** Settled bricks that start at z = 1 or higher and end up distinct form a settled
      stack, so every brick that is not safe makes at least one other fall. */
  lemma ChainTotalAtLeast(bricks: seq<Brick>)
    requires AllProper(bricks) && forall i :: 0 <= i < |bricks| ==> bricks[i].z.start >= 1
    requires var settled := Settle(bricks); forall i, j :: 0 <= i < j < |settled| ==> settled[i] != settled[j]
    ensures ChainTotal(bricks) >= |bricks| - SafeCount(bricks)
  {
    var settled := Settle(bricks);
    SettledProper(bricks);
    SettleAboveGround(bricks);
    SettleRests(bricks);
    assert SettledStack(settled);
    TotalFallsAtLeast(settled, settled);
  }

  /** Settling the parsed bricks in place and adding up the chain reactions. */
  method ChainTotalOf(bricks: seq<Brick>) returns (n: nat)
    requires AllProper(bricks)
    ensures n == ChainTotal(bricks)
  {
    var stack := new Brick[|bricks|](i requires 0 <= i < |bricks| => bricks[i]);
    assert stack[..] == bricks;
    SettleStack(stack);
    n := TotalFalls(stack[..], stack[..]);
  }

  /** `solve`: none when a line is no brick (the source panics), else the total. */
  method Solve(input: string) returns (r: Option<nat>)
    ensures r.None? <==> ParseBricks(Lines(input)).None?
    ensures r.Some? ==> r.value == ChainTotal(ParseBricks(Lines(input)).value)
  {
    var bricks := ParseBricks(Lines(input));
    if bricks.None? {
      return None;
    }
    var n := ChainTotalOf(bricks.value);
    return Some(n);
  }
}
