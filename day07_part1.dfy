/** Day 7, part 1: Camel Cards. A hand is ranked by its kind (five of a kind down to high
    card) and then by its cards read as a base-13 number, first card most significant;
    the hands are sorted and each wins its bid times its rank. */
module Day07Part1 {
  import opened Text

  datatype Ordering = Less | Equal | Greater

  function Reverse(o: Ordering): Ordering
  {
    match o
    case Less => Greater
    case Equal => Equal
    case Greater => Less
  }

  /** `Ord::cmp` on numbers. */
  function CompareNat(a: nat, b: nat): (o: Ordering)
    ensures o == Less <==> a < b
    ensures o == Equal <==> a == b
    ensures o == Greater <==> a > b
  {
    if a < b then Less else if a == b then Equal else Greater
  }

  datatype Kind = FiveOfAKind | FourOfAKind | FullHouse | ThreeOfAKind | TwoPair | OnePair | HighCard

  /** The rank of a kind, from 0 for a high card to 6 for five of a kind. */
  function Strength(k: Kind): (s: nat)
    ensures s <= 6
  {
    match k
    case HighCard => 0
    case OnePair => 1
    case TwoPair => 2
    case ThreeOfAKind => 3
    case FullHouse => 4
    case FourOfAKind => 5
    case FiveOfAKind => 6
  }

  /** The ladder of `Hand::cmp` on two kinds: a five of a kind beats everything else, then
      a four of a kind, and so on down to the high card. */
  function CompareKinds(a: Kind, b: Kind): (o: Ordering)
  {
    if a == b then Equal
    else if a == FiveOfAKind then Greater else if b == FiveOfAKind then Less
    else if a == FourOfAKind then Greater else if b == FourOfAKind then Less
    else if a == FullHouse then Greater else if b == FullHouse then Less
    else if a == ThreeOfAKind then Greater else if b == ThreeOfAKind then Less
    else if a == TwoPair then Greater else if b == TwoPair then Less
    else if a == OnePair then Greater else Less
  }

  /** The ladder compares the strengths of the kinds. */
  lemma CompareKindsByStrength(a: Kind, b: Kind)
    ensures CompareKinds(a, b) == CompareNat(Strength(a), Strength(b))
  {
  }

  /** The cards in the order of the slots of `count_cards`, the ace in slot 0. */
  const Cards: string := "AKQJT98765432"

  predicate Known(hand: string)
  {
    forall i :: 0 <= i < |hand| ==> hand[i] in Cards
  }

  /** The slot of a card; 13 for a character that is no card. */
  function Slot(c: char): (k: nat)
    ensures k <= 13
    ensures k < 13 <==> c in Cards
    ensures k < 13 ==> Cards[k] == c
  {
    match IndexOf(Cards, c)
    case Some(k) => k
    case None => 13
  }

  /** The digit a card adds to `cards_number`: 12 for the ace down to 0 for the two. */
  function Value(c: char): (v: nat)
    ensures v < 13
  {
    if Slot(c) < 13 then 12 - Slot(c) else 0
  }

  lemma CardsDistinct(i: nat, j: nat)
    requires i < j < 13
    ensures Cards[i] != Cards[j]
  {
  }

  /** A card sits in slot `k` exactly when it is `Cards[k]`. */
  lemma SlotIff(c: char, k: nat)
    requires c in Cards && k < 13
    ensures Slot(c) == k <==> c == Cards[k]
  {
    if c == Cards[k] && Slot(c) != k {
      if k < Slot(c) { CardsDistinct(k, Slot(c)); } else { CardsDistinct(Slot(c), k); }
    }
  }

  lemma KnownSlice(hand: string, i: nat, j: nat)
    requires Known(hand) && i <= j <= |hand|
    ensures Known(hand[i..j])
  {
    forall x | 0 <= x < j - i ensures hand[i..j][x] in Cards {
      assert hand[i..j][x] == hand[i + x];
    }
  }

  /** Two cards with the same digit are the same card. */
  lemma ValueInjective(c: char, d: char)
    requires c in Cards && d in Cards && Value(c) == Value(d)
    ensures c == d
  {
  }

  /** The number of cards of `hand` in slot `k`. */
  function Occurrences(hand: string, k: nat): nat
  {
    if hand == [] then 0
    else Occurrences(hand[..|hand| - 1], k) + (if Slot(hand[|hand| - 1]) == k then 1 else 0)
  }

  /** The counts array of `count_cards`. */
  function SlotCounts(hand: string): (counts: seq<nat>)
    ensures |counts| == 13
  {
    seq(13, k requires 0 <= k < 13 => Occurrences(hand, k))
  }

  /** `cards_number`: the cards read as base-13 digits, most significant first. */
  function CardsNumber(hand: string): nat
  {
    if hand == [] then 0 else CardsNumber(hand[..|hand| - 1]) * 13 + Value(hand[|hand| - 1])
  }

  lemma OccurrencesStep(hand: string, i: nat)
    requires i < |hand|
    ensures forall k :: Occurrences(hand[..i + 1], k) == Occurrences(hand[..i], k) + (if Slot(hand[i]) == k then 1 else 0)
    ensures CardsNumber(hand[..i + 1]) == CardsNumber(hand[..i]) * 13 + Value(hand[i])
  {
    assert hand[..i + 1][..i] == hand[..i];
  }

  /** `count_cards`: one pass over the hand, counting each card in its slot and shifting
      its digit into `cards_number`; an unknown card stops the pass (the source panics). */
  method CountCards(hand: string) returns (r: Option<(seq<nat>, nat)>)
    ensures r.None? <==> !Known(hand)
    ensures r.Some? ==> Known(hand) && r.value.0 == SlotCounts(hand) && r.value.1 == CardsNumber(hand)
  {
    var counts := new nat[13](_ => 0);
    var number := 0;
    var i := 0;
    while i < |hand|
      invariant 0 <= i <= |hand|
      invariant forall j :: 0 <= j < i ==> hand[j] in Cards
      invariant forall k :: 0 <= k < 13 ==> counts[k] == Occurrences(hand[..i], k)
      invariant number == CardsNumber(hand[..i])
    {
      var card := hand[i];
      if card !in Cards {
        return None;
      }
      assert forall j :: 0 <= j < i + 1 ==> hand[j] in Cards;
      var k := IndexOf(Cards, card).value;
      OccurrencesStep(hand, i);
      counts[k] := counts[k] + 1;
      number := number * 13 + (12 - k);
      i := i + 1;
    }
    assert hand[..i] == hand;
    r := Some((counts[..], number));
  }

  function Sum(s: seq<nat>): nat
  {
    if s == [] then 0 else s[0] + Sum(s[1..])
  }

  /** Adding one to a single entry adds one to the sum. */
  lemma {:induction false} SumBump(a: seq<nat>, b: seq<nat>, k: nat)
    requires |a| == |b| && k < |a| && b[k] == a[k] + 1
    requires forall i :: 0 <= i < |a| && i != k ==> b[i] == a[i]
    ensures Sum(b) == Sum(a) + 1
  {
    if k > 0 {
      SumBump(a[1..], b[1..], k - 1);
    } else {
      assert a[1..] == b[1..];
    }
  }

  lemma {:induction false} SumZeros(s: seq<nat>)
    requires forall i :: 0 <= i < |s| ==> s[i] == 0
    ensures Sum(s) == 0
  {
    if s != [] { SumZeros(s[1..]); }
  }

  /** One more card raises its own slot's count by one. */
  lemma CountsStep(hand: string)
    requires |hand| > 0
    ensures forall i :: 0 <= i < 13 ==>
      SlotCounts(hand)[i] == SlotCounts(hand[..|hand| - 1])[i] + (if i == Slot(hand[|hand| - 1]) then 1 else 0)
  {
  }

  /** The counts add up to the number of cards. */
  lemma {:induction false} SlotCountsSum(hand: string)
    requires Known(hand)
    ensures Sum(SlotCounts(hand)) == |hand|
  {
    if hand != [] {
      var n := |hand|;
      KnownSlice(hand, 0, n - 1);
      SlotCountsSum(hand[..n - 1]);
      CountsStep(hand);
      var a, b := SlotCounts(hand[..n - 1]), SlotCounts(hand);
      SumBump(a, b, Slot(hand[n - 1]));
    } else {
      SumZeros(SlotCounts(hand));
    }
  }

  /** The count in slot `k` is the multiplicity of card `Cards[k]`. */
  lemma {:induction false} OccurrencesIsMultiplicity(hand: string, k: nat)
    requires Known(hand) && k < 13
    ensures Occurrences(hand, k) == multiset(hand)[Cards[k]]
  {
    if hand != [] {
      var n := |hand|;
      KnownSlice(hand, 0, n - 1);
      var init := hand[..n - 1];
      var last := hand[n - 1];
      OccurrencesIsMultiplicity(init, k);
      assert hand == init + [last];
      assert multiset(hand) == multiset(init) + multiset{last};
      SlotIff(last, k);
    }
  }

  /** The largest entry. */
  function MaxOf(s: seq<nat>): (m: nat)
    requires |s| > 0
    ensures m in s
    ensures forall i :: 0 <= i < |s| ==> s[i] <= m
  {
    if |s| == 1 then s[0]
    else
      var rest := MaxOf(s[1..]);
      if s[0] >= rest then s[0] else rest
  }

  /** How many entries equal `v`. */
  function CountOf(s: seq<nat>, v: nat): (n: nat)
    ensures n <= |s|
    ensures n == 0 <==> v !in s
  {
    if s == [] then 0 else (if s[0] == v then 1 else 0) + CountOf(s[1..], v)
  }

  /** `HandType::from` on the counts: the largest count decides, a full house needs a
      pair beside the three, two pairs need two counts of 2. */
  function KindOfCounts(counts: seq<nat>): (k: Kind)
    requires |counts| == 13
  {
    match MaxOf(counts)
    case 5 => FiveOfAKind
    case 4 => FourOfAKind
    case 3 => if 2 in counts then FullHouse else ThreeOfAKind
    case 2 => if CountOf(counts, 2) == 2 then TwoPair else OnePair
    case _ => HighCard
  }

  function KindOfHand(hand: string): Kind
  {
    KindOfCounts(SlotCounts(hand))
  }

  /** The kind depends only on which cards the hand holds, not on their order. */
  lemma KindIgnoresOrder(a: string, b: string)
    requires Known(a) && Known(b) && multiset(a) == multiset(b)
    ensures SlotCounts(a) == SlotCounts(b)
    ensures KindOfHand(a) == KindOfHand(b)
  {
    forall k | 0 <= k < 13 ensures Occurrences(a, k) == Occurrences(b, k) {
      OccurrencesIsMultiplicity(a, k);
      OccurrencesIsMultiplicity(b, k);
    }
  }

  /** Five equal cards make a five of a kind. */
  lemma {:induction false} AllSameIsFive(c: char)
    requires c in Cards
    ensures KindOfHand([c, c, c, c, c]) == FiveOfAKind
  {
    var hand := [c, c, c, c, c];
    var counts := SlotCounts(hand);
    forall k | 0 <= k < 13 ensures counts[k] == (if k == Slot(c) then 5 else 0) {
      OccurrencesIsMultiplicity(hand, k);
      assert multiset(hand)[Cards[k]] == (if Cards[k] == c then 5 else 0);
      SlotIff(c, k);
    }
    assert counts[Slot(c)] == 5;
  }

  function Pow13(n: nat): (p: nat)
    ensures p >= 1
  {
    if n == 0 then 1 else 13 * Pow13(n - 1)
  }

  /** `cards_number` of `n` cards is below 13^n. */
  lemma {:induction false} CardsNumberBound(hand: string)
    ensures CardsNumber(hand) < Pow13(|hand|)
  {
    if hand != [] {
      CardsNumberBound(hand[..|hand| - 1]);
    }
  }

  /** Shifting the digits after the first one left keeps the first one's weight. */
  lemma ShiftDigit(whole: nat, init: nat, tail: nat, v0: nat, vl: nat, p: nat, x: nat, p1: nat)
    requires whole == init * 13 + vl && init == v0 * p + x && tail == x * 13 + vl && p1 == 13 * p
    ensures whole == v0 * p1 + tail
  {
    assert (v0 * p + x) * 13 == v0 * (13 * p) + x * 13;
  }

  /** The first card is the most significant digit. */
  lemma {:induction false} CardsNumberFront(hand: string)
    requires |hand| > 0
    ensures CardsNumber(hand) == Value(hand[0]) * Pow13(|hand| - 1) + CardsNumber(hand[1..])
  {
    var n := |hand|;
    if n > 1 {
      var init := hand[..n - 1];
      var tail := hand[1..];
      CardsNumberFront(init);
      InnerSlices(hand);
      ShiftDigit(CardsNumber(hand), CardsNumber(init), CardsNumber(tail),
        Value(hand[0]), Value(hand[n - 1]), Pow13(n - 2), CardsNumber(init[1..]), Pow13(n - 1));
    } else {
      assert hand[..0] == [] && hand[1..] == [];
      assert CardsNumber(hand[..0]) == 0;
      OneCard(CardsNumber(hand), Value(hand[0]), Pow13(0));
    }
  }

  /** Dropping the last card and then the first is dropping the first and then the last. */
  lemma InnerSlices(hand: string)
    requires |hand| > 1
    ensures hand[..|hand| - 1][1..] == hand[1..][..|hand| - 2]
    ensures hand[..|hand| - 1][0] == hand[0] && hand[1..][|hand| - 2] == hand[|hand| - 1]
  {
  }

  lemma OneCard(whole: nat, v0: nat, p: nat)
    requires whole == v0 && p == 1
    ensures whole == v0 * p + 0
  {
  }

  /** Cards compared in order, the first pair that differs deciding: the intended tie-break. */
  function Lex(a: string, b: string): Ordering
    requires |a| == |b|
  {
    if a == [] then Equal
    else if Value(a[0]) != Value(b[0]) then CompareNat(Value(a[0]), Value(b[0]))
    else Lex(a[1..], b[1..])
  }

  /** A larger leading digit wins whatever follows. */
  lemma LeadingDigit(va: nat, vb: nat, p: nat, ra: nat, rb: nat)
    requires va < vb && ra < p
    ensures va * p + ra < vb * p + rb
  {
    assert (va + 1) * p <= vb * p;
  }

  /** Two numbers of leading digit and remainder below `p` compare by their leading digits,
      and by their remainders when those agree. */
  lemma CompareDigits(na: nat, nb: nat, va: nat, vb: nat, p: nat, ra: nat, rb: nat)
    requires na == va * p + ra && nb == vb * p + rb && ra < p && rb < p
    ensures va != vb ==> CompareNat(na, nb) == CompareNat(va, vb)
    ensures va == vb ==> CompareNat(na, nb) == CompareNat(ra, rb)
  {
    if va < vb {
      LeadingDigit(va, vb, p, ra, rb);
    } else if vb < va {
      LeadingDigit(vb, va, p, rb, ra);
    }
  }

  /** Comparing the base-13 numbers of two hands of the same length compares their cards
      one by one from the first. */
  lemma {:induction false} CardsNumberIsLex(a: string, b: string)
    requires |a| == |b|
    ensures CompareNat(CardsNumber(a), CardsNumber(b)) == Lex(a, b)
  {
    if a != [] {
      CardsNumberFront(a);
      CardsNumberFront(b);
      CardsNumberBound(a[1..]);
      CardsNumberBound(b[1..]);
      CompareDigits(CardsNumber(a), CardsNumber(b), Value(a[0]), Value(b[0]), Pow13(|a| - 1),
        CardsNumber(a[1..]), CardsNumber(b[1..]));
      if Value(a[0]) == Value(b[0]) {
        CardsNumberIsLex(a[1..], b[1..]);
      }
    }
  }

  datatype Hand = Hand(kind: Kind, number: nat, bid: nat)

  /** `Hand::cmp`: the kinds first, then `cards_number`; the bid plays no part. */
  function CompareHands(a: Hand, b: Hand): Ordering
  {
    match CompareKinds(a.kind, b.kind)
    case Equal => CompareNat(a.number, b.number)
    case o => o
  }

  /** Swapping the hands reverses the comparison. */
  lemma CompareHandsAntisymmetric(a: Hand, b: Hand)
    ensures CompareHands(a, b) == Reverse(CompareHands(b, a))
  {
    CompareKindsByStrength(a.kind, b.kind);
    CompareKindsByStrength(b.kind, a.kind);
  }

  /** Two hands compare equal exactly when kind and number agree. */
  lemma CompareHandsEqual(a: Hand, b: Hand)
    ensures CompareHands(a, b) == Equal <==> a.kind == b.kind && a.number == b.number
  {
    CompareKindsByStrength(a.kind, b.kind);
  }

  predicate Le(a: Hand, b: Hand) { CompareHands(a, b) != Greater }

  lemma LeTotal(a: Hand, b: Hand)
    ensures Le(a, b) || Le(b, a)
  {
    CompareHandsAntisymmetric(a, b);
  }

  lemma LeTransitive(a: Hand, b: Hand, c: Hand)
    requires Le(a, b) && Le(b, c)
    ensures Le(a, c)
  {
    CompareKindsByStrength(a.kind, b.kind);
    CompareKindsByStrength(b.kind, c.kind);
    CompareKindsByStrength(a.kind, c.kind);
  }

  predicate Sorted(s: seq<Hand>)
  {
    forall i, j :: 0 <= i < j < |s| ==> Le(s[i], s[j])
  }

  /** `h` placed before the first hand it does not exceed; equal hands keep their order. */
  function Insert(h: Hand, s: seq<Hand>): (r: seq<Hand>)
    requires Sorted(s)
    ensures multiset(r) == multiset(s) + multiset{h}
    ensures Sorted(r)
  {
    if s == [] then [h]
    else if Le(h, s[0]) then
      InsertFront(h, s);
      [h] + s
    else
      LeTotal(h, s[0]);
      var rest := Insert(h, s[1..]);
      InsertBehind(h, s, rest);
      [s[0]] + rest
  }

  /** A hand no greater than the first of a sorted sequence can go in front of it. */
  lemma InsertFront(h: Hand, s: seq<Hand>)
    requires Sorted(s) && s != [] && Le(h, s[0])
    ensures Sorted([h] + s)
  {
    forall j | 0 < j < |s| ensures Le(h, s[j]) { LeTransitive(h, s[0], s[j]); }
    assert forall j :: 0 <= j < |s| ==> ([h] + s)[j + 1] == s[j];
  }

  /** The first of a sorted sequence stays in front of the rest with `h` inserted, when
      it is no greater than `h`. */
  lemma InsertBehind(h: Hand, s: seq<Hand>, rest: seq<Hand>)
    requires Sorted(s) && s != [] && Le(s[0], h)
    requires multiset(rest) == multiset(s[1..]) + multiset{h} && Sorted(rest)
    ensures multiset([s[0]] + rest) == multiset(s) + multiset{h}
    ensures Sorted([s[0]] + rest)
  {
    assert s == [s[0]] + s[1..];
    assert forall x :: x in multiset(rest) ==> x == h || x in s[1..];
    forall j | 0 <= j < |rest| ensures Le(s[0], rest[j]) {
      assert rest[j] in multiset(rest);
    }
  }

  /** `Itertools::sorted`: ascending, a permutation of the input. The library's sort is
      stable; stability is not part of this contract. */
  function Sort(hands: seq<Hand>): (r: seq<Hand>)
    ensures multiset(r) == multiset(hands)
    ensures Sorted(r)
  {
    if hands == [] then []
    else
      assert hands == [hands[0]] + hands[1..];
      Insert(hands[0], Sort(hands[1..]))
  }

  /** Each hand wins its bid times its rank; `first` is the rank of `s[0]`. */
  function Winnings(s: seq<Hand>, first: nat): nat
  {
    if s == [] then 0 else s[0].bid * first + Winnings(s[1..], first + 1)
  }

  /** A line: skipped without a space or with a bid that does not parse; a hand with an
      unknown card stops the solution (the source panics). */
  datatype Parsed = Skipped | BadCard | Parsed(hand: Hand)

  /** `Hand::try_parse`: the kind is computed before the bid is parsed. */
  function TryParse(line: string): (r: Parsed)
    ensures SplitOnce(line, " ").None? ==> r == Skipped
  {
    match SplitOnce(line, " ")
    case None => Skipped
    case Some((cards, bid)) =>
      if !Known(cards) then BadCard
      else match ParseNat(bid)
        case None => Skipped
        case Some(b) => Parsed(Hand(KindOfHand(cards), CardsNumber(cards), b))
  }

  /** What `TryParse` makes of the text around the first space: an unknown card stops the
      solution, a bid that does not parse skips the line, and otherwise the hand holds the
      cards' kind and value and the parsed bid. */
  lemma TryParseFields(line: string, r: Parsed)
    requires r == TryParse(line)
    ensures SplitOnce(line, " ").Some? ==>
      var (cards, bid) := SplitOnce(line, " ").value;
      (r == BadCard <==> !Known(cards)) &&
      (r.Parsed? <==> Known(cards) && ParseNat(bid).Some?) &&
      (r.Parsed? ==> r.hand == Hand(KindOfHand(cards), CardsNumber(cards), ParseNat(bid).value))
  {
  }

  /** A line of known cards, a space and a printed bid parses to that hand and bid. */
  lemma ParseHandLine(cards: string, b: nat)
    requires ' ' !in cards && Known(cards)
    ensures TryParse(cards + " " + NatToString(b)) == Parsed(Hand(KindOfHand(cards), CardsNumber(cards), b))
  {
    SplitOnceOfJoined(cards, " ", NatToString(b));
    ParseNatOfNatToString(b);
  }

  /** The hands of the lines, in order; none when some line holds an unknown card. */
  function ParseHands(lines: seq<string>): (r: Option<seq<Hand>>)
    ensures r.Some? ==> |r.value| <= |lines|
  {
    Gather(seq(|lines|, i requires 0 <= i < |lines| => TryParse(lines[i])))
  }

  /** The hands of the parsed lines in order, skipped lines dropped; none as soon as one
      line holds an unknown card. */
  function Gather(ps: seq<Parsed>): (r: Option<seq<Hand>>)
    ensures r.None? <==> BadCard in ps
    ensures r.Some? ==> |r.value| <= |ps|
    ensures r.Some? ==> forall h :: h in r.value <==> Parsed(h) in ps
  {
    if ps == [] then Some([])
    else
      match (ps[0], Gather(ps[1..]))
      case (BadCard, _) => None
      case (_, None) => None
      case (Skipped, Some(rest)) => Some(rest)
      case (Parsed(h), Some(rest)) => Some([h] + rest)
  }

  /** The parse fails exactly when some line holds an unknown card; a line without a space
      or with a bad bid is skipped and does not make it fail. */
  lemma ParseHandsFails(lines: seq<string>)
    ensures ParseHands(lines).None? <==> exists i :: 0 <= i < |lines| && TryParse(lines[i]) == BadCard
  {
    var ps := seq(|lines|, i requires 0 <= i < |lines| => TryParse(lines[i]));
    assert ParseHands(lines) == Gather(ps);
    assert forall i :: 0 <= i < |lines| ==> ps[i] == TryParse(lines[i]);
    if BadCard in ps {
      var i :| 0 <= i < |ps| && ps[i] == BadCard;
    }
  }

  /** `solve_part1`: the bids weighted by rank, ranks counted from 1 after sorting. */
  function SolvePart1(input: string): (r: Option<nat>)
    ensures r.None? <==> ParseHands(Lines(input)).None?
    ensures r.Some? ==> r.value >= SumBids(ParseHands(Lines(input)).value)
  {
    match ParseHands(Lines(input))
    case None => None
    case Some(hands) =>
      WinningsAtLeastBids(Sort(hands), 1);
      SumBidsPermutation(Sort(hands), hands);
      Some(Winnings(Sort(hands), 1))
  }

  /** The answer is at least the sum of the bids, since every rank is at least 1. */
  lemma {:induction false} WinningsAtLeastBids(s: seq<Hand>, first: nat)
    requires first >= 1
    ensures Winnings(s, first) >= SumBids(s)
  {
    if s != [] {
      WinningsAtLeastBids(s[1..], first + 1);
    }
  }

  function SumBids(s: seq<Hand>): nat
  {
    if s == [] then 0 else s[0].bid + SumBids(s[1..])
  }

  /** The sum of the bids does not depend on the order of the hands. */
  lemma {:induction false} SumBidsPermutation(a: seq<Hand>, b: seq<Hand>)
    requires multiset(a) == multiset(b)
    ensures SumBids(a) == SumBids(b)
    decreases |a|
  {
    if a == [] {
      assert |b| == |multiset(b)| == 0;
    } else {
      assert a[0] in multiset(b);
      var j :| 0 <= j < |b| && b[j] == a[0];
      var rest := b[..j] + b[j + 1..];
      HandRemoved(b, j);
      assert a == [a[0]] + a[1..];
      assert multiset(a) == multiset{a[0]} + multiset(a[1..]);
      assert multiset(a[1..]) == multiset(a) - multiset{a[0]};
      assert multiset(rest) == multiset(b) - multiset{b[j]};
      SumBidsPermutation(a[1..], rest);
      SumBidsRemove(b, j);
    }
  }

  lemma HandRemoved(b: seq<Hand>, j: nat)
    requires j < |b|
    ensures multiset(b) == multiset(b[..j] + b[j + 1..]) + multiset{b[j]}
  {
    assert b == b[..j] + [b[j]] + b[j + 1..];
  }

  /** Taking one hand out of a sequence takes its bid out of the sum. */
  lemma {:induction false} SumBidsRemove(b: seq<Hand>, j: nat)
    requires j < |b|
    ensures SumBids(b) == b[j].bid + SumBids(b[..j] + b[j + 1..])
  {
    var c := b[..j] + b[j + 1..];
    if j == 0 {
      assert c == b[1..];
    } else {
      SumBidsRemove(b[1..], j - 1);
      assert c[0] == b[0];
      assert c[1..] == b[1..][..j - 1] + b[1..][j..];
    }
  }
}
