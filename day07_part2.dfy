/** Day 7, part 2: 'J' is now a joker. It counts as whatever card makes the hand strongest,
    and it ranks below every other card when equal kinds are compared card by card. */
module Day07Part2 {
  import opened Text
  import Day07Part1

  type Kind = Day07Part1.Kind
  type Ordering = Day07Part1.Ordering

  /** The slots of `count_cards`: the joker in slot 0, then the ace down to the two. */
  const Cards: string := "JAKQT98765432"

  predicate Known(hand: string)
  {
    forall i :: 0 <= i < |hand| ==> hand[i] in Cards
  }

  /** The slot of a card; 13 for a character that is no card. */
  function Slot(c: char): (k: nat)
    ensures k <= 13
    ensures k < 13 <==> c in Cards
    ensures k < 13 ==> Cards[k] == c
  {
    match IndexOf(Cards, c)
    case Some(k) => k
    case None => 13
  }

  /** The number of cards of `hand` in slot `k`. */
  function Occurrences(hand: string, k: nat): nat
  {
    if hand == [] then 0
    else Occurrences(hand[..|hand| - 1], k) + (if Slot(hand[|hand| - 1]) == k then 1 else 0)
  }

  function SlotCounts(hand: string): (counts: seq<nat>)
    ensures |counts| == 13
  {
    seq(13, k requires 0 <= k < 13 => Occurrences(hand, k))
  }

  /** A joker is counted in slot 0. */
  lemma JokersInSlotZero(rest: string)
    ensures SlotCounts(rest + "J")[0] == SlotCounts(rest)[0] + 1
  {
    assert (rest + "J")[..|rest|] == rest;
  }

  lemma OccurrencesStep(hand: string, i: nat)
    requires i < |hand|
    ensures forall k :: Occurrences(hand[..i + 1], k) == Occurrences(hand[..i], k) + (if Slot(hand[i]) == k then 1 else 0)
  {
    assert hand[..i + 1][..i] == hand[..i];
  }

  /** `count_cards`: every card counted in its slot; an unknown card stops the pass (the
      source panics). */
  method CountCards(hand: string) returns (r: Option<seq<nat>>)
    ensures r.None? <==> !Known(hand)
    ensures r.Some? ==> r.value == SlotCounts(hand)
  {
    var result := new nat[13](_ => 0);
    var i := 0;
    while i < |hand|
      invariant 0 <= i <= |hand|
      invariant forall j :: 0 <= j < i ==> hand[j] in Cards
      invariant forall k :: 0 <= k < 13 ==> result[k] == Occurrences(hand[..i], k)
    {
      var card := hand[i];
      if card !in Cards {
        return None;
      }
      assert forall j :: 0 <= j < i + 1 ==> hand[j] in Cards;
      var k := IndexOf(Cards, card).value;
      OccurrencesStep(hand, i);
      result[k] := result[k] + 1;
      i := i + 1;
    }
    assert hand[..i] == hand;
    r := Some(result[..]);
  }

  /** The match of `HandType::from` on the largest count `m` of the other cards and the
      number of jokers `j`; `anyPair` and `pairs` say whether some count is 2 and how many. */
  function JokerTable(m: nat, j: nat, anyPair: bool, pairs: nat): Kind
  {
    if j == 5 || j == 4 || (m == 5 && j == 0) || (m == 4 && j == 1) || (m == 3 && j == 2) || (m == 2 && j == 3) then
      Day07Part1.FiveOfAKind
    else if j == 3 || (m == 4 && j == 0) || (m == 3 && j == 1) || (m == 2 && j == 2) then
      Day07Part1.FourOfAKind
    else if m == 3 && j == 0 then
      if anyPair then Day07Part1.FullHouse else Day07Part1.ThreeOfAKind
    else if m == 1 && j == 2 then
      Day07Part1.ThreeOfAKind
    else if m == 2 && j == 1 then
      if pairs == 2 then Day07Part1.FullHouse else Day07Part1.ThreeOfAKind
    else if m == 2 && j == 0 then
      if pairs == 2 then Day07Part1.TwoPair else Day07Part1.OnePair
    else if m == 1 && j == 1 then
      Day07Part1.OnePair
    else
      Day07Part1.HighCard
  }

  /** `HandType::from` on the counts of a hand. */
  function KindWithJokers(counts: seq<nat>): Kind
    requires |counts| == 13
  {
    JokerTable(Day07Part1.MaxOf(counts[1..]), counts[0], 2 in counts, Day07Part1.CountOf(counts, 2))
  }

  /** Four or five jokers always make five of a kind. */
  lemma ManyJokers(counts: seq<nat>)
    requires |counts| == 13 && (counts[0] == 4 || counts[0] == 5)
    ensures KindWithJokers(counts) == Day07Part1.FiveOfAKind
  {
  }

  lemma MaxOfTail(s: seq<nat>)
    requires |s| > 1 && s[0] == 0
    ensures Day07Part1.MaxOf(s) == Day07Part1.MaxOf(s[1..])
  {
  }

  /** Without a joker the table agrees with the rules of part 1. */
  lemma NoJokersAsPart1(counts: seq<nat>)
    requires |counts| == 13 && counts[0] == 0
    ensures KindWithJokers(counts) == Day07Part1.KindOfCounts(counts)
  {
    MaxOfTail(counts);
  }

  /** The index of a largest entry. */
  function ArgMax(s: seq<nat>): (i: nat)
    requires |s| > 0
    ensures i < |s|
    ensures forall k :: 0 <= k < |s| ==> s[k] <= s[i]
  {
    if |s| == 1 then 0
    else
      var rest := ArgMax(s[1..]);
      assert forall k :: 1 <= k < |s| ==> s[k] == s[1..][k - 1];
      if s[0] >= s[1..][rest] then 0 else rest + 1
  }

  /** The slot the jokers join: a most common card other than the joker. */
  function Target(counts: seq<nat>): (p: nat)
    requires |counts| == 13
    ensures 1 <= p < 13
    ensures forall k :: 1 <= k < 13 ==> counts[k] <= counts[p]
  {
    var i := ArgMax(counts[1..]);
    assert forall k :: 1 <= k < 13 ==> counts[k] == counts[1..][k - 1];
    1 + i
  }

  /** The jokers turned into the most common other card: the hand they make strongest. */
  function Boost(counts: seq<nat>): (b: seq<nat>)
    requires |counts| == 13
    ensures |b| == 13 && b[0] == 0
    ensures b[Target(counts)] == counts[Target(counts)] + counts[0]
    ensures forall k :: 1 <= k < 13 && k != Target(counts) ==> b[k] == counts[k]
  {
    counts[0 := 0][Target(counts) := counts[Target(counts)] + counts[0]]
  }

  lemma MaxOfIs(s: seq<nat>, i: nat)
    requires i < |s| && forall k :: 0 <= k < |s| ==> s[k] <= s[i]
    ensures Day07Part1.MaxOf(s) == s[i]
  {
  }

  /** Changing one entry changes the count of a value by at most that entry. */
  lemma {:induction false} CountOfUpdate(s: seq<nat>, i: nat, x: nat, v: nat)
    requires i < |s|
    ensures Day07Part1.CountOf(s[i := x], v) + (if s[i] == v then 1 else 0)
         == Day07Part1.CountOf(s, v) + (if x == v then 1 else 0)
  {
    if i > 0 {
      CountOfUpdate(s[1..], i - 1, x, v);
      assert s[i := x][1..] == s[1..][i - 1 := x];
    }
  }

  lemma {:induction false} SumAtLeastEntry(s: seq<nat>, i: nat)
    requires i < |s|
    ensures Day07Part1.Sum(s) >= s[i]
  {
    if i > 0 { SumAtLeastEntry(s[1..], i - 1); }
  }

  lemma {:induction false} SumAtMost(s: seq<nat>, m: nat)
    requires forall k :: 0 <= k < |s| ==> s[k] <= m
    ensures Day07Part1.Sum(s) <= |s| * m
  {
    if s != [] { SumAtMost(s[1..], m); }
  }

  lemma {:induction false} CountTimesValue(s: seq<nat>, v: nat)
    ensures Day07Part1.CountOf(s, v) * v <= Day07Part1.Sum(s)
  {
    if s != [] { CountTimesValue(s[1..], v); }
  }

  lemma OthersMax(c: seq<nat>)
    requires |c| == 13
    ensures Day07Part1.MaxOf(c[1..]) == c[Target(c)]
  {
    MaxOfIs(c[1..], Target(c) - 1);
  }

  lemma BoostMax(c: seq<nat>)
    requires |c| == 13
    ensures Day07Part1.MaxOf(Boost(c)) == c[Target(c)] + c[0]
  {
    MaxOfIs(Boost(c), Target(c));
  }

  /** In a five-card hand the jokers and the most common other card make at most five,
      and some other card is held unless all five are jokers. */
  lemma FiveCards(c: seq<nat>)
    requires |c| == 13 && Day07Part1.Sum(c) == 5
    ensures c[Target(c)] + c[0] <= 5
    ensures c[0] < 5 ==> c[Target(c)] >= 1
  {
    var p := Target(c);
    assert c[1..][p - 1] == c[p];
    SumAtLeastEntry(c[1..], p - 1);
    SumAtMost(c[1..], c[p]);
  }

  /** Two jokers beside single cards leave no pair. */
  lemma TwoJokersNoPair(c: seq<nat>)
    requires |c| == 13 && c[0] == 2 && c[Target(c)] == 1
    ensures 2 !in Boost(c)
  {
    var b := Boost(c);
    forall k | 0 <= k < 13 ensures b[k] != 2 {
    }
  }

  /** One joker beside a pair: the boosted hand keeps a pair exactly when there were two. */
  lemma OneJokerPair(c: seq<nat>)
    requires |c| == 13 && Day07Part1.Sum(c) == 5 && c[0] == 1 && c[Target(c)] == 2
    ensures 2 in Boost(c) <==> Day07Part1.CountOf(c, 2) == 2
  {
    var p := Target(c);
    var c0 := c[0 := 0];
    CountOfUpdate(c, 0, 0, 2);
    CountOfUpdate(c0, p, 3, 2);
    assert Boost(c) == c0[p := 3];
    CountTimesValue(c, 2);
  }

  /** One joker beside single cards makes exactly one pair. */
  lemma OneJokerSingles(c: seq<nat>)
    requires |c| == 13 && c[0] == 1 && c[Target(c)] == 1
    ensures Day07Part1.CountOf(Boost(c), 2) == 1
  {
    var p := Target(c);
    var c0 := c[0 := 0];
    assert 2 !in c by {
      forall k | 0 <= k < 13 ensures c[k] != 2 {}
    }
    CountOfUpdate(c, 0, 0, 2);
    CountOfUpdate(c0, p, 2, 2);
    assert Boost(c) == c0[p := 2];
  }

  /** Without jokers nothing is boosted. */
  lemma BoostNoJokers(c: seq<nat>)
    requires |c| == 13 && c[0] == 0
    ensures Boost(c) == c
  {
    var b := Boost(c);
    assert forall k :: 0 <= k < 13 ==> b[k] == c[k];
  }

  /** Jokers that make four or five of a kind with the most common other card. */
  lemma ManyBoosted(c: seq<nat>)
    requires |c| == 13 && c[0] >= 1
    requires 4 <= c[Target(c)] + c[0] <= 5 && (c[0] < 5 ==> c[Target(c)] >= 1)
    ensures KindWithJokers(c) == Day07Part1.KindOfCounts(Boost(c))
  {
    OthersMax(c);
    BoostMax(c);
    TableMany(c[Target(c)], c[0], 2 in c, Day07Part1.CountOf(c, 2));
  }

  /** The table's five and four of a kind with at least one joker. */
  lemma TableMany(m: nat, j: nat, anyPair: bool, pairs: nat)
    requires j >= 1 && 4 <= m + j <= 5 && (j < 5 ==> m >= 1)
    ensures JokerTable(m, j, anyPair, pairs) ==
      if m + j == 5 then Day07Part1.FiveOfAKind else Day07Part1.FourOfAKind
  {
  }

  /** For a five-card hand the table picks the kind of the hand in which the jokers join
      the most common other card. */
  lemma JokersJoinLargestCount(c: seq<nat>)
    requires |c| == 13 && Day07Part1.Sum(c) == 5
    ensures KindWithJokers(c) == Day07Part1.KindOfCounts(Boost(c))
  {
    var p, j := Target(c), c[0];
    var m := c[p];
    FiveCards(c);
    if j == 0 {
      BoostNoJokers(c);
      NoJokersAsPart1(c);
    } else if m + j >= 4 {
      ManyBoosted(c);
    } else {
      FewBoosted(c);
    }
  }

  /** Jokers that make at most three of a kind with the most common other card. */
  lemma FewBoosted(c: seq<nat>)
    requires |c| == 13 && Day07Part1.Sum(c) == 5 && c[0] >= 1
    requires c[Target(c)] >= 1 && c[Target(c)] + c[0] <= 3
    ensures KindWithJokers(c) == Day07Part1.KindOfCounts(Boost(c))
  {
    var m, j := c[Target(c)], c[0];
    if m == 1 && j == 2 {
      BoostedTwoJokers(c);
    } else if m == 2 && j == 1 {
      BoostedPair(c);
    } else {
      BoostedSingles(c);
    }
  }

  lemma BoostedTwoJokers(c: seq<nat>)
    requires |c| == 13 && c[0] == 2 && c[Target(c)] == 1
    ensures KindWithJokers(c) == Day07Part1.KindOfCounts(Boost(c))
  {
    OthersMax(c);
    BoostMax(c);
    TableFew(1, 2, 2 in c, Day07Part1.CountOf(c, 2));
    TwoJokersNoPair(c);
  }

  lemma BoostedPair(c: seq<nat>)
    requires |c| == 13 && Day07Part1.Sum(c) == 5 && c[0] == 1 && c[Target(c)] == 2
    ensures KindWithJokers(c) == Day07Part1.KindOfCounts(Boost(c))
  {
    OthersMax(c);
    BoostMax(c);
    TableFew(2, 1, 2 in c, Day07Part1.CountOf(c, 2));
    OneJokerPair(c);
  }

  lemma BoostedSingles(c: seq<nat>)
    requires |c| == 13 && c[0] == 1 && c[Target(c)] == 1
    ensures KindWithJokers(c) == Day07Part1.KindOfCounts(Boost(c))
  {
    OthersMax(c);
    BoostMax(c);
    TableFew(1, 1, 2 in c, Day07Part1.CountOf(c, 2));
    OneJokerSingles(c);
  }

  /** The table's three of a kind, full house and one pair with at least one joker. */
  lemma TableFew(m: nat, j: nat, anyPair: bool, pairs: nat)
    requires j >= 1 && m >= 1 && m + j <= 3
    ensures JokerTable(m, j, anyPair, pairs) ==
      if j == 2 then Day07Part1.ThreeOfAKind
      else if m == 2 then (if pairs == 2 then Day07Part1.FullHouse else Day07Part1.ThreeOfAKind)
      else Day07Part1.OnePair
  {
  }

  /** The order of single cards in the tie-break: `None` for equal cards. */
  function PairOrder(x: char, y: char): Option<Ordering>
  {
    if x == 'J' && y == 'J' then None
    else if x == 'J' then Some(Day07Part1.Less) else if y == 'J' then Some(Day07Part1.Greater)
    else if x == 'A' && y == 'A' then None
    else if x == 'A' then Some(Day07Part1.Greater) else if y == 'A' then Some(Day07Part1.Less)
    else if x == 'K' && y == 'K' then None
    else if x == 'K' then Some(Day07Part1.Greater) else if y == 'K' then Some(Day07Part1.Less)
    else if x == 'Q' && y == 'Q' then None
    else if x == 'Q' then Some(Day07Part1.Greater) else if y == 'Q' then Some(Day07Part1.Less)
    else if x == 'T' && y == 'T' then None
    else if x == 'T' then Some(Day07Part1.Greater) else if y == 'T' then Some(Day07Part1.Less)
    else if x == y then None
    else if x < y then Some(Day07Part1.Less) else Some(Day07Part1.Greater)
  }

  /** `cmp_cards`: the first differing pair of cards decides; `Equal` when none differs. */
  function CmpCards(a: string, b: string): Ordering
  {
    if a == [] || b == [] then Day07Part1.Equal
    else match PairOrder(a[0], b[0])
      case Some(o) => o
      case None => CmpCards(a[1..], b[1..])
  }

  /** The rank of a card in the tie-break: the joker lowest, the characters other than
      the face cards in character order, then ten, queen, king and ace. */
  function Rank(c: char): nat
  {
    var top := 0x11_0000;
    if c == 'J' then 0 else if c == 'T' then top + 1 else if c == 'Q' then top + 2
    else if c == 'K' then top + 3 else if c == 'A' then top + 4
    else c as int + 1
  }

  /** Single cards compare by rank; different cards never tie. */
  lemma PairOrderByRank(x: char, y: char)
    ensures PairOrder(x, y) == if x == y then None else Some(Day07Part1.CompareNat(Rank(x), Rank(y)))
  {
  }

  /** The joker is below every other card. */
  lemma JokerLowest(y: char)
    requires y != 'J'
    ensures PairOrder('J', y) == Some(Day07Part1.Less)
    ensures PairOrder(y, 'J') == Some(Day07Part1.Greater)
  {
  }

  /** Identical hands compare `Equal`. */
  lemma {:induction false} CmpCardsReflexive(a: string)
    ensures CmpCards(a, a) == Day07Part1.Equal
  {
    if a != [] {
      PairOrderByRank(a[0], a[0]);
      CmpCardsReflexive(a[1..]);
    }
  }

  lemma {:induction false} CmpCardsAntisymmetric(a: string, b: string)
    ensures CmpCards(a, b) == Day07Part1.Reverse(CmpCards(b, a))
  {
    if a != [] && b != [] {
      PairOrderByRank(a[0], b[0]);
      PairOrderByRank(b[0], a[0]);
      CmpCardsAntisymmetric(a[1..], b[1..]);
    }
  }

  /** On hands of the same length the tie-break is transitive. */
  lemma {:induction false} CmpCardsTransitive(a: string, b: string, c: string)
    requires |a| == |b| == |c|
    requires CmpCards(a, b) != Day07Part1.Greater && CmpCards(b, c) != Day07Part1.Greater
    ensures CmpCards(a, c) != Day07Part1.Greater
  {
    if a != [] {
      PairOrderByRank(a[0], b[0]);
      PairOrderByRank(b[0], c[0]);
      PairOrderByRank(a[0], c[0]);
      if a[0] == b[0] && b[0] == c[0] {
        CmpCardsTransitive(a[1..], b[1..], c[1..]);
      }
    }
  }

  datatype Hand = Hand(kind: Kind, cards: string, bid: nat)

  /** `Hand::cmp`: the kind ladder of part 1, then `cmp_cards`. */
  function CompareHands(a: Hand, b: Hand): Ordering
  {
    match Day07Part1.CompareKinds(a.kind, b.kind)
    case Equal => CmpCards(a.cards, b.cards)
    case o => o
  }

  predicate Le(a: Hand, b: Hand) { CompareHands(a, b) != Day07Part1.Greater }

  lemma LeTotal(a: Hand, b: Hand)
    ensures Le(a, b) || Le(b, a)
  {
    Day07Part1.CompareKindsByStrength(a.kind, b.kind);
    Day07Part1.CompareKindsByStrength(b.kind, a.kind);
    CmpCardsAntisymmetric(a.cards, b.cards);
  }

  lemma LeTransitive(a: Hand, b: Hand, c: Hand)
    requires |a.cards| == |b.cards| == |c.cards|
    requires Le(a, b) && Le(b, c)
    ensures Le(a, c)
  {
    Day07Part1.CompareKindsByStrength(a.kind, b.kind);
    Day07Part1.CompareKindsByStrength(b.kind, c.kind);
    Day07Part1.CompareKindsByStrength(a.kind, c.kind);
    if a.kind == b.kind == c.kind {
      CmpCardsTransitive(a.cards, b.cards, c.cards);
    }
  }

  /** Each hand is at most its successor. */
  predicate Sorted(s: seq<Hand>)
  {
    forall k :: 0 < k < |s| ==> Le(s[k - 1], s[k])
  }

  /** With hands of one length, neighbours in order means every pair in order. */
  lemma {:induction false} SortedPairwise(s: seq<Hand>, i: nat, j: nat)
    requires Sorted(s) && i < j < |s|
    requires forall k :: 0 <= k < |s| ==> |s[k].cards| == |s[0].cards|
    ensures Le(s[i], s[j])
    decreases j - i
  {
    if i + 1 < j {
      SortedPairwise(s, i + 1, j);
      LeTransitive(s[i], s[i + 1], s[j]);
    }
  }

  /** One swap of that pass: `a[j]` changes places with the larger hand before it. */
  method SwapDown(a: array<Hand>, i: nat, j: nat)
    requires 0 < j <= i < a.Length && !Le(a[j - 1], a[j])
    requires forall k :: 0 < k < j ==> Le(a[k - 1], a[k])
    requires forall k :: j < k <= i ==> Le(a[k - 1], a[k])
    requires j < i ==> Le(a[j - 1], a[j + 1])
    modifies a
    ensures a[..] == old(a[..])[j - 1 := old(a[j])][j := old(a[j - 1])]
    ensures multiset(a[..]) == multiset(old(a[..]))
    ensures forall k :: 0 < k < j - 1 ==> Le(a[k - 1], a[k])
    ensures forall k :: j - 1 < k <= i ==> Le(a[k - 1], a[k])
    ensures 0 < j - 1 < i ==> Le(a[j - 2], a[j])
  {
    LeTotal(a[j - 1], a[j]);
    a[j - 1], a[j] := a[j], a[j - 1];
  }

  /** One pass of the insertion sort: `a[i]` moves down past the larger hands before it. */
  method InsertDown(a: array<Hand>, i: nat)
    requires i < a.Length
    requires forall k :: 0 < k < i ==> Le(a[k - 1], a[k])
    modifies a
    ensures forall k :: 0 < k <= i ==> Le(a[k - 1], a[k])
    ensures forall k :: i < k < a.Length ==> a[k] == old(a[k])
    ensures multiset(a[..]) == multiset(old(a[..]))
  {
    var j := i;
    while j > 0 && !Le(a[j - 1], a[j])
      invariant 0 <= j <= i
      invariant forall k :: 0 < k < j ==> Le(a[k - 1], a[k])
      invariant forall k :: j < k <= i ==> Le(a[k - 1], a[k])
      invariant 0 < j < i ==> Le(a[j - 1], a[j + 1])
      invariant forall k :: i < k < a.Length ==> a[k] == old(a[k])
      invariant multiset(a[..]) == multiset(old(a[..]))
    {
      SwapDown(a, i, j);
      j := j - 1;
    }
  }

  /** `hands.sort()`: an insertion sort by swaps of neighbours into ascending order. The
      library's sort is stable; stability is not part of this contract. */
  method SortHands(a: array<Hand>)
    modifies a
    ensures Sorted(a[..])
    ensures multiset(a[..]) == multiset(old(a[..]))
  {
    var i := 0;
    while i < a.Length
      invariant 0 <= i <= a.Length
      invariant forall k :: 0 < k < i ==> Le(a[k - 1], a[k])
      invariant multiset(a[..]) == multiset(old(a[..]))
    {
      InsertDown(a, i);
      i := i + 1;
    }
  }

  datatype Parsed = Skipped | BadCard | Parsed(hand: Hand)

  /** `Hand::try_parse`: the kind is computed before the bid is parsed. */
  function TryParse(line: string): (r: Parsed)
    ensures SplitOnce(line, " ").None? ==> r == Skipped
  {
    match SplitOnce(line, " ")
    case None => Skipped
    case Some((cards, bid)) =>
      if !Known(cards) then BadCard
      else match ParseNat(bid)
        case None => Skipped
        case Some(b) => Parsed(Hand(KindWithJokers(SlotCounts(cards)), cards, b))
  }

  /** What `TryParse` makes of the text around the first space: an unknown card stops the
      solution, a bid that does not parse skips the line, and otherwise the hand holds the
      cards' kind and value and the parsed bid. */
  lemma TryParseFields(line: string, r: Parsed)
    requires r == TryParse(line)
    ensures SplitOnce(line, " ").Some? ==>
      var (cards, bid) := SplitOnce(line, " ").value;
      (r == BadCard <==> !Known(cards)) &&
      (r.Parsed? <==> Known(cards) && ParseNat(bid).Some?) &&
      (r.Parsed? ==> r.hand == Hand(KindWithJokers(SlotCounts(cards)), cards, ParseNat(bid).value))
  {
  }

  /** A line of known cards, a space and a printed bid parses to that hand and bid. */
  lemma ParseHandLine(cards: string, b: nat)
    requires ' ' !in cards && Known(cards)
    ensures TryParse(cards + " " + NatToString(b)) == Parsed(Hand(KindWithJokers(SlotCounts(cards)), cards, b))
  {
    SplitOnceOfJoined(cards, " ", NatToString(b));
    ParseNatOfNatToString(b);
  }

  /** The hands of the lines, in order; none when some line holds an unknown card. */
  function ParseHands(lines: seq<string>): (r: Option<seq<Hand>>)
    ensures r.Some? ==> |r.value| <= |lines|
  {
    Gather(seq(|lines|, i requires 0 <= i < |lines| => TryParse(lines[i])))
  }

  /** The hands of the parsed lines in order, skipped lines dropped; none as soon as one
      line holds an unknown card. */
  function Gather(ps: seq<Parsed>): (r: Option<seq<Hand>>)
    ensures r.None? <==> BadCard in ps
    ensures r.Some? ==> |r.value| <= |ps|
    ensures r.Some? ==> forall h :: h in r.value <==> Parsed(h) in ps
  {
    if ps == [] then Some([])
    else
      match (ps[0], Gather(ps[1..]))
      case (BadCard, _) => None
      case (_, None) => None
      case (Skipped, Some(rest)) => Some(rest)
      case (Parsed(h), Some(rest)) => Some([h] + rest)
  }

  /** The parse fails exactly when some line holds an unknown card; a line without a space
      or with a bad bid is skipped and does not make it fail. */
  lemma ParseHandsFails(lines: seq<string>)
    ensures ParseHands(lines).None? <==> exists i :: 0 <= i < |lines| && TryParse(lines[i]) == BadCard
  {
    var ps := seq(|lines|, i requires 0 <= i < |lines| => TryParse(lines[i]));
    assert ParseHands(lines) == Gather(ps);
    assert forall i :: 0 <= i < |lines| ==> ps[i] == TryParse(lines[i]);
    if BadCard in ps {
      var i :| 0 <= i < |ps| && ps[i] == BadCard;
    }
  }

  /** Each hand wins its bid times its rank; `first` is the rank of `s[0]`. */
  function Winnings(s: seq<Hand>, first: nat): nat
  {
    if s == [] then 0 else s[0].bid * first + Winnings(s[1..], first + 1)
  }

  /** The sum over the sorted array, from the last rank down. */
  method SumWinnings(a: array<Hand>) returns (total: nat)
    ensures total == Winnings(a[..], 1)
  {
    total := 0;
    var n := a.Length;
    while n > 0
      invariant 0 <= n <= a.Length
      invariant total == Winnings(a[n..], n + 1)
    {
      n := n - 1;
      assert a[n..][1..] == a[n + 1..];
      total := total + a[n].bid * (n + 1);
    }
  }

  /** `solve_part2`: the hands sorted in place, then the bids weighted by rank. `ranked`
      is the sorted order the sum is taken over. */
  method SolvePart2(input: string) returns (r: Option<nat>, ghost ranked: seq<Hand>)
    ensures ParseHands(Lines(input)).None? ==> r.None?
    ensures ParseHands(Lines(input)).Some? ==>
      var hands := ParseHands(Lines(input)).value;
      multiset(ranked) == multiset(hands) && Sorted(ranked) && r == Some(Winnings(ranked, 1))
  {
    var parsed := ParseHands(Lines(input));
    if parsed.None? {
      return None, [];
    }
    var total;
    total, ranked := RankHands(parsed.value);
    r := Some(total);
  }

  /** The parsed hands copied into an array, sorted in place and summed by rank. */
  method RankHands(hands: seq<Hand>) returns (total: nat, ghost ranked: seq<Hand>)
    ensures multiset(ranked) == multiset(hands) && Sorted(ranked)
    ensures total == Winnings(ranked, 1)
  {
    var a := new Hand[|hands|](i requires 0 <= i < |hands| => hands[i]);
    assert a[..] == hands;
    SortHands(a);
    ranked := a[..];
    total := SumWinnings(a);
  }
}
