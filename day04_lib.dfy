/** Day 4: scratchcards "Card <n>: <winning numbers> | <numbers you have>". */
module Day04 {
  import opened Text

  /** The two lists of a card, kept as text as the source keeps them. */
  datatype Card = Card(winning: string, numbers: string)

  /** `Card::try_parse`: the text after the first ": ", split at its first " | "; `None`
      when either separator is missing. */
  function TryParse(line: string): (r: Option<Card>)
    ensures SplitOnce(line, ": ").None? ==> r.None?
    ensures r.Some? ==> exists head :: line == head + ": " + r.value.winning + " | " + r.value.numbers
    ensures r.Some? <==>
      SplitOnce(line, ": ").Some? && SplitOnce(SplitOnce(line, ": ").value.1, " | ").Some?
    ensures r.Some? ==>
      SplitOnce(SplitOnce(line, ": ").value.1, " | ") == Some((r.value.winning, r.value.numbers))
  {
    match SplitOnce(line, ": ")
    case None => None
    case Some((head, rhs)) =>
      match SplitOnce(rhs, " | ")
      case None => None
      case Some((winning, numbers)) =>
        Rejoin(line, head, rhs, winning, numbers);
        Some(Card(winning, numbers))
  }

  /** The two splits of `TryParse` put back together. */
  lemma Rejoin(line: string, head: string, rhs: string, winning: string, numbers: string)
    requires line == head + ": " + rhs && rhs == winning + " | " + numbers
    ensures line == head + ": " + winning + " | " + numbers
  {
  }

  /** " | " cannot start at `j` when the character after `j` is no '|'. */
  lemma NoBarAt(s: string, j: nat)
    requires j + 1 < |s| && s[j + 1] != '|'
    ensures !OccursAt(s, " | ", j)
  {
  }

  lemma SplitAtBar(winning: string, numbers: string)
    requires '|' !in winning
    ensures SplitOnce(winning + " | " + numbers, " | ") == Some((winning, numbers))
  {
    var rhs := winning + " | " + numbers;
    forall j | 0 <= j < |winning| ensures !OccursAt(rhs, " | ", j) {
      if j + 1 < |winning| {
        assert rhs[j + 1] == winning[j + 1];
      } else {
        assert rhs[j + 1] == ' ';
      }
      NoBarAt(rhs, j);
    }
    assert rhs[|winning|..|winning| + 3] == " | ";
    FindFromIsFirstOccurrence(rhs, " | ", 0, |winning|);
    assert rhs[|winning| + 3..] == numbers;
  }

  /** A card line whose head has no ':' and whose winning list has no '|' parses into
      exactly those two lists. */
  lemma ParseCardLine(head: string, winning: string, numbers: string)
    requires ':' !in head && '|' !in winning
    ensures TryParse(head + ": " + winning + " | " + numbers) == Some(Card(winning, numbers))
  {
    var rhs := winning + " | " + numbers;
    assert head + ": " + winning + " | " + numbers == head + ": " + rhs;
    SplitOnceOfJoined(head, ": ", rhs);
    SplitAtBar(winning, numbers);
  }

  /** How many of `numbers` occur in `winning`, counting repeats in `numbers`. */
  function CountIn(numbers: seq<string>, winning: seq<string>): (n: nat)
    ensures n <= |numbers|
    ensures n == 0 <==> forall i :: 0 <= i < |numbers| ==> numbers[i] !in winning
    ensures n == |numbers| <==> forall i :: 0 <= i < |numbers| ==> numbers[i] in winning
  {
    if numbers == [] then 0
    else
      var rest := CountIn(numbers[1..], winning);
      assert forall i :: 1 <= i < |numbers| ==> numbers[i] == numbers[1..][i - 1];
      (if numbers[0] in winning then 1 else 0) + rest
  }

  /** `count_matches`: the numbers you have that are among the winning numbers. */
  function CountMatches(c: Card): nat
  {
    CountIn(SplitWhitespace(c.numbers), SplitWhitespace(c.winning))
  }

  function Pow2(n: nat): (p: nat)
    ensures p >= 1
  {
    if n == 0 then 1 else 2 * Pow2(n - 1)
  }

  /** The part-1 score `1 << (k - 1)`, or 0 without a match. */
  function Score(k: nat): (s: nat)
    ensures s == 0 <==> k == 0
  {
    if k == 0 then 0 else Pow2(k - 1)
  }

  /** The first match is worth one point and every further match doubles the score. */
  lemma ScoreDoubles(k: nat)
    ensures Score(1) == 1
    ensures k >= 1 ==> Score(k + 1) == 2 * Score(k)
  {
  }

  function ParseCards(lines: seq<string>): seq<Card>
  {
    if lines == [] then []
    else (match TryParse(lines[0]) case Some(c) => [c] case None => []) + ParseCards(lines[1..])
  }

  /** No card has a winning number. */
  predicate NoMatches(cards: seq<Card>)
  {
    forall i :: 0 <= i < |cards| ==> CountMatches(cards[i]) == 0
  }

  function SumScores(cards: seq<Card>): (r: nat)
    ensures r == 0 <==> NoMatches(cards)
  {
    if cards == [] then 0
    else
      assert forall i :: 1 <= i < |cards| ==> cards[i] == cards[1..][i - 1];
      Score(CountMatches(cards[0])) + SumScores(cards[1..])
  }

  /** `solve` of part 1: the points of the cards added up; no points exactly when no card
      has a winning number. */
  function SolvePart1(input: string): (r: nat)
    ensures r == 0 <==> NoMatches(ParseCards(Lines(input)))
  {
    SumScores(ParseCards(Lines(input)))
  }

  function MatchCounts(cards: seq<Card>): (r: seq<nat>)
    ensures |r| == |cards|
    ensures forall i :: 0 <= i < |cards| ==> r[i] == CountMatches(cards[i])
  {
    if cards == [] then [] else [CountMatches(cards[0])] + MatchCounts(cards[1..])
  }

  /** The number of copies of card `m` won in the end: the original, plus, for each
      earlier card `n` whose matches reach card `m`, as many copies as card `n` has. */
  function Copies(matches: seq<nat>, m: nat): (c: nat)
    requires m < |matches|
    ensures c >= 1
    decreases m, 1
  {
    1 + Won(matches, m, m)
  }

  /** The copies of card `m` won from the cards before card `i`. */
  function Won(matches: seq<nat>, i: nat, m: nat): nat
    requires i <= m < |matches|
    decreases i, 0
  {
    if i == 0 then 0
    else
      Won(matches, i - 1, m) + (if m <= (i - 1) + matches[i - 1] then Copies(matches, i - 1) else 0)
  }

  /** The inner loop of `solve_part2`: `count` more copies of each card in `from..upto`. */
  method AddCopies(cards: array<nat>, from: nat, upto: nat, count: nat)
    requires from <= upto <= cards.Length
    modifies cards
    ensures forall k :: 0 <= k < cards.Length ==>
      cards[k] == old(cards[k]) + (if from <= k < upto then count else 0)
  {
    var m := from;
    while m < upto
      invariant from <= m <= upto
      invariant forall k :: 0 <= k < cards.Length ==>
        cards[k] == old(cards[k]) + (if from <= k < m then count else 0)
    {
      cards[m] := cards[m] + count;
      m := m + 1;
    }
  }

  /** Card `n` passes its copies on to card `k` exactly when its matches reach `k`. */
  lemma WonStep(matches: seq<nat>, n: nat, k: nat)
    requires n < k < |matches|
    ensures Won(matches, n + 1, k) ==
      Won(matches, n, k) + (if k <= n + matches[n] then Copies(matches, n) else 0)
  {
  }

  /** How many cards of any number are held in the end. */
  function TotalCopies(matches: seq<nat>, upto: nat): nat
    requires upto <= |matches|
  {
    if upto == 0 then 0 else TotalCopies(matches, upto - 1) + Copies(matches, upto - 1)
  }

  /** Every card is held at least once, so the total is at least the number of cards. */
  lemma {:induction false} TotalAtLeastCards(matches: seq<nat>, upto: nat)
    requires upto <= |matches|
    ensures TotalCopies(matches, upto) >= upto
  {
    if upto > 0 { TotalAtLeastCards(matches, upto - 1); }
  }

  /** Cards without any match win nothing: every card is held exactly once. */
  lemma {:induction false} NoMatchesNoCopies(matches: seq<nat>, i: nat, m: nat)
    requires i <= m < |matches|
    requires forall n :: 0 <= n < |matches| ==> matches[n] == 0
    ensures Won(matches, i, m) == 0
  {
    if i > 0 { NoMatchesNoCopies(matches, i - 1, m); }
  }

  /** The outer loop of `solve_part2`: card `n` adds its copies to the next `matches[n]`
      cards, stopping at the last card. */
  method CardCopies(matches: seq<nat>) returns (copies: seq<nat>)
    ensures |copies| == |matches|
    ensures forall m :: 0 <= m < |matches| ==> copies[m] == Copies(matches, m)
  {
    var cards := new nat[|matches|](_ => 1);
    var n := 0;
    while n < |matches|
      invariant 0 <= n <= |matches|
      invariant forall m :: n <= m < |matches| ==> cards[m] == 1 + Won(matches, n, m)
      invariant forall m :: 0 <= m < n ==> cards[m] == Copies(matches, m)
    {
      var count := cards[n];
      assert count == Copies(matches, n);
      var upto := if n + 1 + matches[n] < |matches| then n + 1 + matches[n] else |matches|;
      AddCopies(cards, n + 1, upto, count);
      forall k | n < k < |matches| ensures cards[k] == 1 + Won(matches, n + 1, k) {
        assert n + 1 <= k < upto <==> k <= n + matches[n];
        WonStep(matches, n, k);
      }
      n := n + 1;
    }
    copies := cards[..];
  }

  /** `solve_part2`: the copies of all cards, summed. */
  method SolvePart2(input: string) returns (total: nat)
    ensures total == TotalCopies(MatchCounts(ParseCards(Lines(input))), |ParseCards(Lines(input))|)
  {
    total := SumCopies(MatchCounts(ParseCards(Lines(input))));
  }

  /** The loop of `solve_part2`: every card's copies added up. */
  method SumCopies(matches: seq<nat>) returns (total: nat)
    ensures total == TotalCopies(matches, |matches|)
  {
    var copies := CardCopies(matches);
    total := 0;
    var i := 0;
    while i < |copies|
      invariant 0 <= i <= |copies|
      invariant total == TotalCopies(matches, i)
    {
      total := total + copies[i];
      i := i + 1;
    }
  }
}
