# Advent of Code 2023 puzzle solvers, modelled in Dafny

This project models the puzzle solvers of the Rust repository quagaar/Advent-of-Code-2023 and proves properties of them. Every day's solver reads the puzzle input as text and computes one number. Each core source file becomes one Dafny module, named after the day and the part (`Day05`, `Day14Part2`, `Day19SplitRange`, ...). Two shared modules hold what the parsers and grids have in common:

- `Text` models the `str` methods the solvers call: `split`, `split_once`, `lines`, `split_ascii_whitespace`, `trim`, decimal parsing, and a `Join` that inverts `Split`. It also holds a few arithmetic helper lemmas.
- `Grids` models `Grid::from_vec`: row-major layout of a flat byte string and bounds-checked cell access.

The model takes the form of each source file:

- Pure parsers, classifiers and recursions are functions, each with lemmas. Examples are the card-hand ranking, the finite-difference extrapolation and the range splitting.
- Loops that update variables are methods with loop invariants, proved against specification functions:
  - the binary search of day 6;
  - the copy propagation of day 4;
  - the range conversion of day 5;
  - the queue loops of days 16, 17, 19, 20 and 23;
  - the Dijkstra search of day 17.
- In-place grid and array updates keep their arrays:
  - the rock rolling of day 14 on a two-dimensional array;
  - the lens boxes of day 15 on an array of 256 boxes;
  - the settling of the brick stack in day 22.

Malformed input, on which the source panics or unwraps, gives `None` (or an `Outcome` naming the panic) in the model. Any other input gives the source's answer, except where "## Findings" records a bug in the source: on exactly those inputs the solvers use the corrected members named there. These solvers are Day03.SolvePart2 (a '*' on the first or last line, or next to a neighbour line too short for the gear's window of columns, where the source's slice panics), Day05.SolvePart2 (a map line of length 0), Day06.SolvePart1 and Day06.SolvePart2 (a record no hold time beats), Day10Part1.Solve and Day10Part2.Solve (a start on the last row or column), and Day19Part2.Solve (a test "greater than 65535"). Input bytes are ASCII and are modelled as `char`s. An unbounded walk is bounded by a `fuel` parameter, and running out of fuel has its own outcome. This applies to the day 8 and day 10 walks, the day 19 and day 20 queues, and the day 23 corridor walk and search.

## Model

| member | source | states |
|---|---|---|
| Text.Split | day02/src/lib.rs:26-30 | `str::split`: at least one piece, joining the pieces with the separator gives the input back, and no piece contains the separator |
| Text.SplitOfJoin | day02/src/lib.rs:26-30 | splitting text built by joining separator-free pieces gives exactly those pieces |
| Text.SplitOnce | day02/src/lib.rs:24-25 | `split_once`: the text before and after the first occurrence of the separator, or `None` exactly when it does not occur |
| Text.Lines | day01/src/part1.rs:5 | `lines`: the input's newline-separated pieces in order, each without a trailing '\r', the empty piece after a final newline dropped; empty input has no lines and no line contains a newline |
| Text.LinesOfTerminated | day01/src/part1.rs:5 | lines without newlines or a trailing '\r', each written with a newline after it, read back as exactly those lines |
| Text.LinesOfJoin | day01/src/part1.rs:5 | the same without the final newline, when the last line is not empty |
| Text.SplitWhitespace | day06/src/lib.rs:25-31 | `split_ascii_whitespace`: non-empty tokens without whitespace whose concatenation is the input with its whitespace removed |
| Text.SplitWhitespaceOfJoin | day06/src/lib.rs:25-31 | non-empty whitespace-free tokens joined by single spaces split back into exactly those tokens, so no token is cut in two |
| Text.ParseNat | day02/src/lib.rs:25 | `parse::<usize>`: succeeds exactly on digits with an optional leading '+', giving the decimal value of the digits in both cases |
| Text.ParseNatOfNatToString | day02/src/lib.rs:25 | parsing the decimal text of a number gives the number back |
| Text.ParseInt | day09/src/part1.rs:10 | `parse` of a signed integer: succeeds exactly on what ParseNat accepts, with its value, or on '-' followed by digits, giving the negated value |
| Text.Trim | day24/src/part2.rs:105 | `str::trim`: the result is no longer than the input and is empty or starts and ends with a character that is not Unicode whitespace (the vertical tab included) |
| Text.TrimIsSlice | day24/src/part2.rs:105 | the trimmed text is a slice of the input with only whitespace before and after it |
| Day01Part1.FirstDigitIndex | day01/src/part1.rs:8 | the index of the first digit: a digit with no digit before it; `None` exactly when there is none |
| Day01Part1.LastDigitIndex | day01/src/part1.rs:9 | the index of the last digit, scanning from the right; `None` exactly when there is none |
| Day01Part1.CalibrationValue | day01/src/part1.rs:6-15 | `None` exactly for a line without a digit; otherwise a value below 100 |
| Day01Part1.ValueOfDigits | day01/src/part1.rs:6-11 | the value is 10 times the leftmost digit plus the rightmost digit |
| Day01Part1.SingleDigitTwice | day01/src/part1.rs:7-11 | a line with one digit d has the value 11·d |
| Day01Part1.DigitlessLineAddsNothing | day01/src/part1.rs:12-16 | a line without digits adds nothing to the sum |
| Day01Part1.Total | day01/src/part1.rs:4-16 | the sum of the calibration values of the lines with a digit is at most 99 per line |
| Day01Part1.TotalAppend | day01/src/part1.rs:6-16 | the sum over two runs of lines is the sum of the two sums |
| Day01Part1.Solve | day01/src/part1.rs:3-17 | the answer is at most 99 per input line |
| Day01Part2.FirstEntry | day01/src/part2.rs:40-48 | the first table entry that is a prefix of the text, with no earlier entry matching; `None` exactly when none matches |
| Day01Part2.FirstEntryIsLeastMatch | day01/src/part2.rs:41-47 | any matching entry with no earlier match is the one the lookup picks |
| Day01Part2.LookupIsDigit | day01/src/part2.rs:19-38 | a lookup yields a digit from 1 to 9 |
| Day01Part2.DigitCharLookup | day01/src/part2.rs:29-48 | text starting with a digit character 1-9 looks up as that digit, whatever follows |
| Day01Part2.ZeroIsNoDigit | day01/src/part2.rs:19-48 | text starting with '0' looks up as nothing |
| Day01Part2.FirstPosition | day01/src/part2.rs:8 | the leftmost position where the lookup succeeds, none before it; `None` when there is none |
| Day01Part2.LastPosition | day01/src/part2.rs:9 | the rightmost position where the lookup succeeds, none after it |
| Day01Part2.CalibrationValue | day01/src/part2.rs:6-15 | `None` exactly when no position looks up as a digit |
| Day01Part2.CalibrationValueBounds | day01/src/part2.rs:7-11 | both digits are in 1..9, so a value lies in 11..99 |
| Day01Part2.CalibrationValueOfEnds | day01/src/part2.rs:7-11 | the value is ten times the digit looked up at the leftmost position where the lookup succeeds, plus the digit looked up at the rightmost such position |
| Day01Part2.Total | day01/src/part2.rs:4-16 | at most 99 per line, and 0 exactly when no line has a digit or digit word |
| Day01Part2.TotalAppend | day01/src/part2.rs:6-16 | the sum over two runs of lines is the sum of the two sums |
| Day01Part2.Solve | day01/src/part2.rs:3-17 | the answer is at most 99 per input line, and 0 exactly when no input line yields a calibration value |
| Day02.ParseFormat | day02/src/lib.rs:23-40 | parsing the line "Game N: c colour, ...; ..." printed from a game gives that game back |
| Day02.CubeRoundTrip | day02/src/lib.rs:31-35 | a cube "count colour" parses back to its count and colour |
| Day02.TryParse | day02/src/lib.rs:23-40 | a parsed game has at least one round; a line without ": " does not parse |
| Day02.PossibleIff | day02/src/lib.rs:43-52 | a game is possible exactly when every draw has at most 12 red, 13 green or 14 blue |
| Day02.UnknownColourImpossible | day02/src/lib.rs:49 | a draw of any other colour makes the game impossible |
| Day02.MaxInRoundsIsMaximum | day02/src/lib.rs:54-63 | the per-colour maximum bounds every draw of that colour and is 0 or one of the draws |
| Day02.RoundMaxima | day02/src/lib.rs:56-61 | the inner loop leaves each colour's running maximum raised to that colour's largest count in the round |
| Day02.CubePower | day02/src/lib.rs:54-65 | the loop's result is the product of the three per-colour maxima |
| Day02.ParseCubes | day02/src/lib.rs:29-35 | the `filter_map` over a round's pieces yields at most one cube per piece; which cubes they are is stated by Day02.ParseFormat |
| Day02.ParseRounds | day02/src/lib.rs:26-37 | one round per piece; their cubes are stated by Day02.ParseFormat |
| Day02.FormatCubes | day02/src/lib.rs:29-35 | the printing inverse of ParseCubes gives one text per cube; Day02.ParseFormat proves the round trip |
| Day02.FormatRounds | day02/src/lib.rs:26-37 | one text per round; Day02.ParseFormat proves the round trip |
| Day02.SumPossibleIds | day02/src/lib.rs:1-8 | the sum is 0 exactly when no line adds a possible game's id |
| Day02.SumPossibleIdsAppend | day02/src/lib.rs:1-8 | the sum over two runs of lines is the sum of the two sums |
| Day02.SumPowers | day02/src/lib.rs:10-16 | the sum is 0 exactly when every line's power is 0 |
| Day02.SumPowersAppend | day02/src/lib.rs:10-16 | the sum over two runs of lines is the sum of the two sums |
| Day02.SolvePart1 | day02/src/lib.rs:1-8 | the answer is 0 exactly when no input line adds a possible game's id |
| Day02.SolvePart2 | day02/src/lib.rs:10-16 | the answer is 0 exactly when no input line has a game of non-zero power |
| Day03.NextDigit | day03/src/lib.rs:30 | the first digit at or after the scan position, none skipped; `None` when no digit remains |
| Day03.RunEnd | day03/src/lib.rs:32-36 | the run of digits ends at the first non-digit or at the end of the line |
| Day03.RangesFromAreRuns | day03/src/lib.rs:27-42 | the yielded ranges are maximal runs of digits, strictly increasing with a gap between neighbours, and cover every digit |
| Day03.FindNumberRanges | day03/src/lib.rs:27-42 | the scan advancing `pos` yields exactly the ranges of the specification |
| Day03.GearsFromSpec | day03/src/lib.rs:44-55 | the yielded positions hold '*', increase strictly, and include every '*' of the line from the starting position on |
| Day03.FindGearPositions | day03/src/lib.rs:44-55 | the scan yields exactly those positions |
| Day03.Get | day03/src/lib.rs:72-74 | `str::get` gives a slice exactly when the range fits in the string |
| Day03.Part1ValidIff | day03/src/lib.rs:63-88 | a number is kept exactly when the line above, below or itself is long enough and holds a symbol in the columns from one before the number to one after it |
| Day03.AdjacentIff | day03/src/lib.rs:59 | `start <= g+1 && end >= g` holds exactly when a digit of the number lies in column g-1, g or g+1 |
| Day03.Ratio | day03/src/lib.rs:100-111 | a gear has a ratio exactly when two numbers touch it, and the ratio is their product |
| Day03.GearRatioAsWritten | day03/src/lib.rs:92-104 | slicing the window out of the neighbour lines fails exactly when one of them is shorter than the window |
| Day03.GearOnFirstLinePanics | day03/src/lib.rs:17-21 | a '*' on the first line makes the slice of the empty padding line above fail |
| Day03.GearRatio | day03/src/lib.rs:92-111 | the corrected ratio, with missing neighbour windows empty: a value exactly when two numbers touch the gear, and the value of the as-written calculator whenever that one does not fail |
| Day03.GearOnFirstLineCounts | day03/src/lib.rs:17-21 | with the correction, a gear on the first line is judged by its own line and the one below |
| Day03.Windows | day03/src/lib.rs:5-6 | every line is seen with the line above and the line below, an empty line beyond each edge |
| Day03.SumPart1 | day03/src/lib.rs:5-13 | the fold's total is 0 exactly when every window adds 0 |
| Day03.SumPart2 | day03/src/lib.rs:17-24 | the fold's total is 0 exactly when every window adds 0 |
| Day03.SolvePart1 | day03/src/lib.rs:4-14 | the answer is 0 exactly when no window of the input's lines, padded with an empty line at each end, adds a part number |
| Day03.SolvePart2 | day03/src/lib.rs:16-25 | corrected: the answer is 0 exactly when no window of the padded lines adds a gear ratio |
| Day04.TryParse | day04/src/lib.rs:43-47 | parses exactly when the line has a ": " and the text after the first one has a bar between spaces; the card's two halves are the text before and after the first such bar |
| Day04.ParseCardLine | day04/src/lib.rs:43-47 | a line of a head, ": ", the winning list, a bar between spaces and the numbers parses into exactly those two lists when the head has no ':' and the winning list no bar |
| Day04.SumScores | day04/src/lib.rs:5-12 | the total score is 0 exactly when no card has a winning number |
| Day04.SolvePart1 | day04/src/lib.rs:1-13 | the answer is 0 exactly when no card of the input has a winning number |
| Day04.CountIn | day04/src/lib.rs:49-54 | the count of numbers held that are winning: at most the numbers held, 0 exactly when none wins, all exactly when every one wins |
| Day04.Score | day04/src/lib.rs:6-10 | the part-1 score is 0 exactly for a card without matches |
| Day04.ScoreDoubles | day04/src/lib.rs:6-10 | one match scores 1 and each further match doubles the score (2^(k-1)) |
| Day04.MatchCounts | day04/src/lib.rs:16-20 | one match count per parsed card, in order |
| Day04.Copies | day04/src/lib.rs:21-33 | each card is held at least once, its original |
| Day04.CardCopies | day04/src/lib.rs:21-33 | after the loop, card m holds 1 plus the copies of every earlier card n whose matches reach m (n < m <= n + matches[n]); additions stop at the last card |
| Day04.AddCopies | day04/src/lib.rs:25-30 | each card from n + 1 up to n + matches, stopping at the last card, gains the copies of card n; every other card is unchanged |
| Day04.SumCopies | day04/src/lib.rs:21-34 | the loop's total is the number of copies of every card |
| Day04.TotalAtLeastCards | day04/src/lib.rs:21-34 | the part-2 total is at least the number of cards |
| Day04.NoMatchesNoCopies | day04/src/lib.rs:23-32 | without any match no copies are won |
| Day04.SolvePart2 | day04/src/lib.rs:15-35 | the sum of the copies of all parsed cards |
| Day05.ParseMapRange | day05/src/lib.rs:107-117 | a parsed map line has source and destination ranges of the same length |
| Day05.ParseMapRangeLine | day05/src/lib.rs:107-117 | the line "d s len" parses to destination d..d+len and source s..s+len |
| Day05.TakeRanges | day05/src/lib.rs:65 | `map_while` consumes at least one line (the first that is not a range) unless the lines are exhausted |
| Day05.ParseMaps | day05/src/lib.rs:52-70 | every parsed map consists of well-formed ranges |
| Day05.SeedRanges | day05/src/lib.rs:40-50 | the seed ranges start..start+len are well formed |
| Day05.ConvertFirstMatch | day05/src/lib.rs:72-79 | a value in a source range, in no earlier one, moves by that range's offset |
| Day05.ConvertUnmatched | day05/src/lib.rs:72-79 | a value in no source range is returned unchanged |
| Day05.ConvertValue | day05/src/lib.rs:72-79 | the early-return loop computes the conversion of the specification |
| Day05.Minimum | day05/src/lib.rs:8-12 | the minimum is one of the values and no value is lower; none for no value |
| Day05.Locations | day05/src/lib.rs:8-10 | each seed's location is the seed folded through the maps |
| Day05.ConvertRangeShape | day05/src/lib.rs:119-150 | `None` exactly for a range disjoint from the source; a range inside the source moves whole, with no remainder |
| Day05.ConvertRangeSizes | day05/src/lib.rs:119-150 | the converted part and the remainders are ranges with start ≤ end whose lengths add up to the input range's length |
| Day05.ConvertRangeCovers | day05/src/lib.rs:119-150 | the converted part is exactly the image of the overlap under the map line, and the remainders are exactly the part of the input outside the source |
| Day05.StepSpec | day05/src/lib.rs:84-94 | one pass of the flat-map keeps the total length, converts the covered values and passes on exactly the uncovered ones |
| Day05.ConvertRangesSpec | day05/src/lib.rs:81-98 | the output ranges hold exactly the converted values of the input ranges, and the total length is preserved |
| Day05.ConvertRangesLoop | day05/src/lib.rs:81-98 | the loop reassigning `source_ranges` and pushing onto `destination_ranges` computes the specification |
| Day05.ThroughSpec | day05/src/lib.rs:20-23 | through all maps, the ranges hold exactly the part-1 locations of their seeds |
| Day05.MinStartAsWritten | day05/src/lib.rs:23-26 | the lowest start of all output ranges, empty ones included; none only for no range |
| Day05.EmptyMapRangeSkewsMinimum | day05/src/lib.rs:136-142 | a zero-length map line gives the answer 0 for seeds 5..15 although every location is at least 5 |
| Day05.MinStart | day05/src/lib.rs:23-26 | the lowest start among the non-empty output ranges |
| Day05.SeedRangeMinimum | day05/src/lib.rs:15-30 | corrected: a seed range's answer is reached by one of its seeds and no seed's location is lower |
| Day05.MinOverSeedRangesSpec | day05/src/lib.rs:17-29 | corrected: over several seed ranges the answer is the location of a seed of one of them and no seed of any has a lower location; none exactly when every range is empty |
| Day05.SolvePart1 | day05/src/lib.rs:5-13 | the answer is the location of one listed seed and no listed seed has a lower location; an answer needs a seeds line whose tokens all parse |
| Day05.SolvePart2 | day05/src/lib.rs:15-30 | an answer needs a seeds line |
| Day05.SolvePart2Minimum | day05/src/lib.rs:15-30 | corrected: the answer is the lowest location of any seed of the input's seed ranges, and there is one exactly when some range holds a seed |
| Day06.Monotone | day06/src/lib.rs:49-51 | the distance `(t - h) * h` does not decrease up to half the race |
| Day06.Symmetric | day06/src/lib.rs:49-51 | holding for `h` wins exactly when holding for `t - h` wins |
| Day06.NoWinnerAtHalf | day06/src/lib.rs:34-37 | when holding for `t / 2` loses, every hold time loses |
| Day06.WinnersAreInterval | day06/src/lib.rs:33-47 | the winners are exactly the hold times from the least winner `m` to `t - m` |
| Day06.WinCountFromLeast | day06/src/lib.rs:46 | the number of winners is `t + 1 - 2 * m` for the least winner `m` |
| Day06.CountWinScenarios | day06/src/lib.rs:33-47 | as written: the binary search keeps `low` losing and `high` winning, and the result is the number of winning hold times whenever `t / 2` wins; otherwise it is `t + 1 - 2 * (t / 2)` |
| Day06.UnbeatableRecordCountsOne | day06/src/lib.rs:35-46 | for `t = 2` and record 1 no hold time wins, yet the formula gives 1 |
| Day06.CountWins | day06/src/lib.rs:33-47 | corrected: the result is the number of winning hold times for every race, 0 included |
| Day06.DataLine | day06/src/lib.rs:19-23 | no numbers exactly when the line has no ':' |
| Day06.ValueLineIgnoresSpaces | day06/src/lib.rs:25-31 | the value is the text after ':' with all whitespace removed, parsed as a number |
| Day06.Zip | day06/src/lib.rs:5-7 | the races pair the i-th time with the i-th distance, as many as the shorter list holds |
| Day06.UnwinnableRaceZeroes | day06/src/lib.rs:5-9 | one race without a winner makes the product 0 |
| Day06.SolvePart1 | day06/src/lib.rs:1-10 | the answer is the product of the winning counts of the races; none without two lines with ':' |
| Day06.SolvePart2 | day06/src/lib.rs:12-17 | the answer is the winning count of the single race read from the two lines |
| Day07Part1.CompareKindsByStrength | day07/src/part1.rs:36-64 | the ladder of `Hand::cmp` orders the kinds by strength, five of a kind highest and high card lowest |
| Day07Part1.CountCards | day07/src/part1.rs:105-164 | the loop leaves in slot `k` the number of cards `Cards[k]` and in `cards_number` the base-13 value of the hand; none exactly when a card is unknown |
| Day07Part1.SlotCountsSum | day07/src/part1.rs:105-164 | the counts add up to the number of cards |
| Day07Part1.KindIgnoresOrder | day07/src/part1.rs:79-100 | the counts and the kind depend only on which cards the hand holds, not on their order |
| Day07Part1.AllSameIsFive | day07/src/part1.rs:81-82 | five equal cards make five of a kind |
| Day07Part1.CardsNumberBound | day07/src/part1.rs:109-159 | the number of `n` cards is below 13^n |
| Day07Part1.CardsNumberFront | day07/src/part1.rs:109-159 | the first card is the most significant base-13 digit |
| Day07Part1.CardsNumberIsLex | day07/src/part1.rs:36-64 | for hands of the same length, comparing `cards_number` compares the cards one by one from the first |
| Day07Part1.CompareHandsAntisymmetric | day07/src/part1.rs:36-64 | swapping two hands reverses their comparison |
| Day07Part1.CompareHandsEqual | day07/src/part1.rs:36-64 | two hands compare equal exactly when kind and number agree |
| Day07Part1.LeTransitive | day07/src/part1.rs:36-64 | the order on hands is transitive |
| Day07Part1.Sort | day07/src/part1.rs:7 | the sorted hands are a permutation of the parsed hands, in ascending order |
| Day07Part1.WinningsAtLeastBids | day07/src/part1.rs:8-10 | with ranks counted from 1 the answer is at least the sum of the bids |
| Day07Part1.TryParse | day07/src/part1.rs:20-26 | a line without a space is skipped; Day07Part1.TryParseFields states what the other lines give |
| Day07Part1.TryParseFields | day07/src/part1.rs:20-26 | for the cards before the first space and the bid after it: an unknown card marks the line bad, and the line parses exactly when the cards are known and the bid is a number, into the hand of those cards' kind and value with that bid |
| Day07Part1.ParseHandLine | day07/src/part1.rs:20-26 | a line written as known cards, a space and a bid parses back into that hand |
| Day07Part1.Gather | day07/src/part1.rs:4-6 | fails exactly when some line has an unknown card; otherwise keeps exactly the parsed hands, at most one per line |
| Day07Part1.ParseHands | day07/src/part1.rs:4-6 | at most one hand per line |
| Day07Part1.ParseHandsFails | day07/src/part1.rs:4-6 | parsing the lines fails exactly when one of them has an unknown card |
| Day07Part1.SumBidsPermutation | day07/src/part1.rs:7-10 | reordering the hands keeps the sum of their bids |
| Day07Part1.SolvePart1 | day07/src/part1.rs:3-11 | no answer exactly when a line has an unknown card; otherwise the winnings are at least the sum of all bids |
| Day07Part2.JokersInSlotZero | day07/src/part2.rs:154 | a joker is counted in slot 0 |
| Day07Part2.CountCards | day07/src/part2.rs:150-171 | the loop leaves in slot `k` the number of cards `Cards[k]`; none exactly when a card is unknown |
| Day07Part2.ManyJokers | day07/src/part2.rs:116 | four or five jokers make five of a kind |
| Day07Part2.NoJokersAsPart1 | day07/src/part2.rs:112-145 | without a joker the hand has the kind that part 1 gives it |
| Day07Part2.JokersJoinLargestCount | day07/src/part2.rs:112-145 | for five cards the table gives the kind of the hand in which the jokers join the most common other card |
| Day07Part2.PairOrderByRank | day07/src/part2.rs:71-95 | single cards compare by one rank: the joker lowest, then the other characters in character order, then T, Q, K, A |
| Day07Part2.JokerLowest | day07/src/part2.rs:72-74 | the joker is below every other card |
| Day07Part2.CmpCardsReflexive | day07/src/part2.rs:97 | identical hands compare `Equal` |
| Day07Part2.CmpCardsAntisymmetric | day07/src/part2.rs:68-98 | swapping the hands reverses the tie-break |
| Day07Part2.CmpCardsTransitive | day07/src/part2.rs:68-98 | on hands of one length the tie-break is transitive |
| Day07Part2.LeTotal | day07/src/part2.rs:37-65 | any two hands are ordered one way or the other |
| Day07Part2.LeTransitive | day07/src/part2.rs:37-65 | on hands of one length the order is transitive |
| Day07Part2.SortedPairwise | day07/src/part2.rs:6 | in a sorted list of hands of one length every earlier hand is at most every later one |
| Day07Part2.SortHands | day07/src/part2.rs:6 | sorting in place leaves the same hands, each at most its successor |
| Day07Part2.SumWinnings | day07/src/part2.rs:7-11 | the sum is each bid times its rank, ranks counted from 1 |
| Day07Part2.SolvePart2 | day07/src/part2.rs:1-12 | the answer is the rank-weighted sum over a sorted permutation of the parsed hands; none when a line has an unknown card |
| Day07Part2.TryParse | day07/src/part2.rs:21-27 | a line without a space is skipped; Day07Part2.TryParseFields states what the other lines give |
| Day07Part2.TryParseFields | day07/src/part2.rs:21-27 | for the cards before the first space and the bid after it: an unknown card marks the line bad, and the line parses exactly when the cards are known and the bid is a number, into the hand of the cards' kind with jokers and that bid |
| Day07Part2.ParseHandLine | day07/src/part2.rs:21-27 | a line written as known cards, a space and a bid parses back into that hand |
| Day07Part2.Gather | day07/src/part2.rs:2-5 | fails exactly when some line has an unknown card; otherwise keeps exactly the parsed hands, at most one per line |
| Day07Part2.ParseHands | day07/src/part2.rs:2-5 | at most one hand per line |
| Day07Part2.ParseHandsFails | day07/src/part2.rs:2-5 | parsing the lines fails exactly when one of them has an unknown card |
| Day07Part2.RankHands | day07/src/part2.rs:6-11 | the ranked hands are the given ones sorted, and the total is their winnings by rank |
| Day09Part1.Diffs | day09/src/part1.rs:17-20 | the differences are one fewer than the readings, each the later reading minus the earlier |
| Day09Part1.ConstantNext | day09/src/part1.rs:15-26 | a constant sequence extrapolates to the same number |
| Day09Part1.ArithmeticNext | day09/src/part1.rs:15-26 | a sequence with a constant step extrapolates to the next term of the progression |
| Day09Part1.ProcessLine | day09/src/part1.rs:7-13 | a line yields a value exactly when at least one of its tokens is a number |
| Day09Part1.Solve | day09/src/part1.rs:3-5 | the sum exists exactly when every line has a number |
| Day09Part2.DiffsOfReverse | day09/src/part2.rs:17-20 | the differences of the reversed readings are the reversed differences negated |
| Day09Part2.NextOfNegate | day09/src/part1.rs:15-26 | negating every reading negates the extrapolated next value |
| Day09Part2.PreviousIsNextOfReverse | day09/src/part2.rs:15-26 | extrapolating backwards equals extrapolating the reversed readings forwards |
| Day09Part2.ArithmeticPrevious | day09/src/part2.rs:15-26 | a sequence with a constant step extrapolates backwards to one step before the first term |
| Day09Part2.ProcessLine | day09/src/part2.rs:7-13 | a line yields a value exactly when at least one of its tokens is a number |
| Day09Part2.Solve | day09/src/part2.rs:3-5 | the sum exists exactly when every line has a number |
| Day08Part1.ReadMapLine | day08/src/part1.rs:25-29 | a line that reads is its node, " = ", and a text whose trimmed form is the two successors joined by ", "; a line without " = " does not read |
| Day08Part1.ReadMapLineOfNode | day08/src/part1.rs:25-29 | "X = (L, R)" reads back as X with successors L and R |
| Day08Part1.BuildMap | day08/src/part1.rs:5-9 | the map's nodes are exactly the nodes of the map lines read |
| Day08Part1.BuildMapKeepsLast | day08/src/part1.rs:5-9 | a node maps to the successors of its last map line |
| Day08Part1.Step | day08/src/part1.rs:12-17 | 'L' takes the left and 'R' the right successor; an unknown node or any other direction fails |
| Day08Part1.FailureStays | day08/src/part1.rs:11-21 | once a move fails, the walk stays failed |
| Day08Part1.WalkSplit | day08/src/part1.rs:11 | after whole rounds of the cycled directions the walk continues as a fresh walk from the node reached |
| Day08Part1.LoopRepeats | day08/src/part1.rs:11 | a walk back at its start after whole rounds repeats its nodes forever |
| Day08Part1.OutcomeUnique | day08/src/part1.rs:11-22 | at most one outcome (arrival after n moves, panic, none within the bound) fits a walk |
| Day08Part1.Navigate | day08/src/part1.rs:10-21 | the loop returns the first move count that reaches "ZZZ", or panics at the first failing move, or runs out of its bound |
| Day08Part1.Solve | day08/src/part1.rs:3-23 | no line or no directions panics; otherwise the outcome is the walk over the first line's directions through the map lines after the second line |
| Day10Part1.Cell | day10/src/part1.rs:88 | a tile is read only inside the grid, where it is the character at that row and column |
| Day10Part1.NextFollowsOpenings | day10/src/part1.rs:87-156 | a walker moves on exactly when its pipe opens on the side it came from and the far opening stays on the grid; it then leaves by the pipe's other opening onto the adjacent tile and arrives from the tile it left |
| Day10Part1.AcceptsIffOpensBack | day10/src/part1.rs:36-67 | a neighbour of the start is accepted exactly when its pipe opens back towards the start |
| Day10Part1.Candidate | day10/src/part1.rs:36-67 | a neighbour becomes a walker exactly when it is on the grid and accepted, standing there and coming from the start's side |
| Day10Part1.AsWrittenAgreesWhenInside | day10/src/part1.rs:34-73 | whenever the clamped reads as written do not panic, and always when the start is off the last row and column, they find the same two walkers as the corrected reads |
| Day10Part1.StartOnLastRowPanics | day10/src/part1.rs:44 | with the start on the last row of "F7" / "SJ" the clamped southern read is past the end, while the corrected reads find the walkers north and east |
| Day10Part1.StartDirectionsConnect | day10/src/part1.rs:34-73 | the two walkers come from different sides, are one step from the start, and their pipes open towards it |
| Day10Part1.FindStart | day10/src/part1.rs:75-85 | the start is the first 'S' of the first row that has one; none exactly when no row has an 'S' |
| Day10Part1.AdvanceStep | day10/src/part1.rs:6-13 | the walkers after one more joint step are those after the steps so far, each moved on through its pipe |
| Day10Part1.Meet | day10/src/part1.rs:6-16 | the loop answers the first joint step count at which both walkers share a tile, plus one for the step from the start, or the first panic, or runs out of its bound |
| Day10Part1.Solve | day10/src/part1.rs:3-17 | without a start or two connecting neighbours the walk panics; otherwise the outcome is that of the walkers leaving the start |
| Day10Part2.StartPipeOpenings | day10/src/part2.rs:11-19 | the pipe inferred under 'S' opens exactly towards the two walkers' tiles |
| Day10Part2.StartWalkersApart | day10/src/part2.rs:20 | the two walkers leaving the start stand on different tiles |
| Day10Part2.TraceLoop | day10/src/part2.rs:20-26 | the loop ends as the part-1 walk does, and when the walkers meet the pipe set is the start plus every tile either walker stood on |
| Day10Part2.InsideCount | day10/src/part2.rs:33-50 | a diagonal segment counts at most as many tiles as it has |
| Day10Part2.FoldIsInsideCount | day10/src/part2.rs:33-50 | the fold's flag is the parity of loop crossings so far, and its count is the number of tiles off the loop with an odd number of crossings before them |
| Day10Part2.DiagonalRows | day10/src/part2.rs:31-32 | each anti-diagonal's rows lie within the grid and end no later than the diagonal's index allows |
| Day10Part2.DiagonalCount | day10/src/part2.rs:29-52 | a diagonal's count is the number of tiles off the loop with an odd number of crossings before them |
| Day10Part2.SumDiagonalsBound | day10/src/part2.rs:28-53 | the total over `n` diagonals is at most `n` times the height |
| Day10Part2.SolveFrom | day10/src/part2.rs:10-54 | the answer follows the traced loop: a panic, unfinished, or the enclosed count over the start and walker tiles |
| Day10Part2.Solve | day10/src/part2.rs:3-55 | without a start or two connecting neighbours the answer is a panic; otherwise it is the answer from the start directions |
| Day10Part2.StartOnLastColumnPanics | day10/src/part2.rs:104 | with the start on the last column of a 3-by-3 pipe loop, at the middle of its right-hand side, the clamped eastern read is past the end of the row, while the corrected reads find the walkers north and south |
| Day11Part2.FindBlankRows | day11/src/part2.rs:40-46 | a row is listed exactly when it is made only of '.', in increasing order |
| Day11Part2.FindBlankCols | day11/src/part2.rs:48-63 | no answer without lines or when a line has a non-'.' past the first line's width; otherwise exactly the columns no line occupies, in increasing order |
| Day11Part2.BlankColumns | day11/src/part2.rs:48-63 | the blank columns are exactly the columns below the first line's width with nothing but '.' in any line, in increasing order |
| Day11Part2.ExpandGap | day11/src/part2.rs:26-33 | expansion widens the gap between two coordinates by the expansion once per blank line between them |
| Day11Part2.ExpandMonotone | day11/src/part2.rs:26-33 | expansion keeps coordinates strictly in order |
| Day11Part2.LineGalaxies | day11/src/part2.rs:28-35 | the galaxies of a line are exactly its non-'.' characters at their expanded columns and the line's height |
| Day11Part2.Galaxies | day11/src/part2.rs:18-38 | a point is a galaxy exactly when some non-'.' character sits at its expanded row and column |
| Day11Part2.PairSumAppend | day11/src/part2.rs:8-15 | adding a galaxy adds its distance to every earlier one, so every unordered pair is counted once |
| Day11Part2.GetExpanded | day11/src/part2.rs:5-16 | no answer without lines, on an overflowing line, or without galaxies; otherwise the pair sum of the expanded galaxies |
| Day11Part2.Solve | day11/src/part2.rs:1-3 | the answer with the expansion of a million |
| Day12Part1.FirstHash | day12/src/part1.rs:35 | the first '#' at or after a position, or the length when there is none |
| Day12Part1.OffsetsFromMembers | day12/src/part1.rs:53-69 | the offsets yielded from `o` are exactly the cells that are not '.', up to and including the first '#', plus the end when no '#' comes first |
| Day12Part1.AfterOffsetsMembers | day12/src/part1.rs:53-69 | after a group that fills the pattern the next state is the end; otherwise offset 0 is skipped and the offsets are the non-'.' cells up to the first '#', plus the end when there is none |
| Day12Part1.AfterHashesPositions | day12/src/part1.rs:53-69 | the generator's loop over `prev` and `pos` yields exactly those offsets |
| Day12Part1.ArrangementsAreCount | day12/src/part1.rs:8-31 | with positive group sizes, the table's entry at the end of the pattern is the number of ways to place the groups, as a cell-by-cell recursion counts them |
| Day12Part1.ProcessLine | day12/src/part1.rs:8-9 | a record without a space has no answer |
| Day12Part1.ProcessLineIsCount | day12/src/part1.rs:8-31 | a record's answer is the number of its arrangements |
| Day12Part1.Solve | day12/src/part1.rs:4-6 | the sum is defined exactly when every record has a space |
| Day12Part2.Unfold | day12/src/part2.rs:11 | the unfolded pattern is five copies joined by '?', of length 5n+4, and stays well formed |
| Day12Part2.FindAfterPosIsValidGroup | day12/src/part2.rs:72-83 | on a well-formed pattern, resuming after a group starting at a '#' or '?' is defined exactly when the group is valid there, and resumes one past the separator or at the end |
| Day12Part2.FindAfterPosBound | day12/src/part2.rs:72-83 | resuming never goes past the end of the pattern |
| Day12Part2.FindDamagedGroups | day12/src/part2.rs:41-70 | the generator's loop yields the resume position of every '?' where a group fits and of the first '#', where it stops |
| Day12Part2.CountOverDamaged | day12/src/part2.rs:41-70 | searching from a position finds exactly the arrangements of the groups from that position |
| Day12Part2.CountWhenDone | day12/src/part2.rs:30 | with no group left, a state counts exactly when no '#' follows it |
| Day12Part2.ArrangementsAreCount | day12/src/part2.rs:14-32 | on a well-formed pattern with positive sizes, the table's finished states hold exactly the number of arrangements |
| Day12Part2.PartsAgree | day12/src/part2.rs:14-32 | the two search strategies count the same arrangements |
| Day12Part2.UnfoldedSizes | day12/src/part2.rs:12-16 | the unfolded size list parses to the sizes repeated five times |
| Day12Part2.ProcessLine | day12/src/part2.rs:8-9 | a record without a space has no answer |
| Day12Part2.ProcessLineIsCount | day12/src/part2.rs:8-33 | a well-formed record's answer is the number of arrangements of the unfolded record with the sizes repeated five times |
| Day12Part2.Solve | day12/src/part2.rs:4-6 | the sum is defined exactly when every record has a space |
| Day13Part1.ReflectionIsMirror | day13/src/part1.rs:27-41 | comparing the shorter side of a line is the same as every mirrored pair on the two sides agreeing |
| Day13Part1.ReflectionOfReverse | day13/src/part1.rs:27-41 | flipping a pattern moves its line of reflection to the mirrored position, in both directions |
| Day13Part1.KeepReflecting | day13/src/part1.rs:10-16 | the fold keeps exactly the candidate columns that reflect every row |
| Day13Part1.VerticalLines | day13/src/part1.rs:10-16 | the vertical lines are exactly the columns 1.. of the first row's width that reflect every row |
| Day13Part1.HorizontalLines | day13/src/part1.rs:18-20 | the horizontal lines are exactly the rows 1.. between which the pattern reflects |
| Day13Part1.ProcessPattern | day13/src/part1.rs:7-25 | a pattern without rows has no answer (the source indexes `map[0]`); otherwise the vertical sum plus a hundred times the horizontal sum |
| Day13Part1.SolvePatterns | day13/src/part1.rs:3-5 | the sum is defined exactly when every blank-line separated pattern has an answer |
| Day13Part1.Solve | day13/src/part1.rs:3-5 | an answer exactly when every blank-line separated pattern of the input has a row, the `map[0]` index being the only panic |
| Day13Part2.SmudgesArePairs | day13/src/part2.rs:34-44 | a row's smudge count is the number of differing mirrored pairs around the line that lie in the row |
| Day13Part2.NoSmudgeIsReflection | day13/src/part2.rs:34-44 | a row has no smudge at a column exactly when part 1 finds a reflection there |
| Day13Part2.CountDifferences | day13/src/part2.rs:58-60 | the differences never exceed the length of either row |
| Day13Part2.NoDifferencesIsEqual | day13/src/part2.rs:58-60 | rows of one width have no difference exactly when they are equal |
| Day13Part2.DifferencesSymmetric | day13/src/part2.rs:58-60 | the difference count does not depend on the order of the rows |
| Day13Part2.NoHorizontalSmudgeIsReflection | day13/src/part2.rs:46-56 | in a rectangular pattern, no smudge between mirrored rows is exactly part 1's horizontal reflection |
| Day13Part2.SingleSmudge | day13/src/part2.rs:10-21 | a column totals one smudge exactly when one row has a single mismatch there and every other row reflects |
| Day13Part2.VerticalTotals | day13/src/part2.rs:10-17 | the fold leaves, at each column 1.., the sum of every row's smudges there |
| Day13Part2.VerticalLines | day13/src/part2.rs:18-23 | the vertical lines are exactly the columns 1.. whose total is one smudge |
| Day13Part2.HorizontalLines | day13/src/part2.rs:25-27 | the horizontal lines are exactly the rows 1.. with one smudge between mirrored rows |
| Day13Part2.Score | day13/src/part2.rs:7-32 | a pattern without rows has no answer |
| Day13Part2.ProcessPattern | day13/src/part2.rs:7-32 | the per-column accumulation computes the score of the selected lines |
| Day13Part2.SolvePatterns | day13/src/part2.rs:3-5 | the sum is defined exactly when every pattern has a row |
| Day13Part2.Solve | day13/src/part2.rs:3-5 | the sum over the blank-line separated patterns is defined exactly when every one of them has a row |
| Day14Part1.SettleKeepsRocks | day14/src/part1.rs:8-19 | rolling a column keeps its number of round rocks and leaves each cube rock where it was |
| Day14Part1.SettlePacked | day14/src/part1.rs:10-16 | after rolling, every round rock sits at the top or right below a rock |
| Day14Part1.SettleIdempotent | day14/src/part1.rs:8-19 | rolling an already rolled column changes nothing |
| Day14Part1.ColumnLoad | day14/src/part1.rs:6-20 | the scan with a falling `cost`, reset below each '#', sums the loads of the round rocks of the rolled column |
| Day14Part1.Solve | day14/src/part1.rs:1-23 | no answer for a platform without lines or with a line shorter than the first; otherwise the sum of the rolled column loads |
| Day14Part2.RollNorth | day14/src/part2.rs:34-53 | the grid after the in-place roll is every column of the old grid rolled to the top |
| Day14Part2.RollNorthColumn | day14/src/part2.rs:35-51 | the inner loop with its insertion row rolls one column and leaves every other column untouched |
| Day14Part2.NorthCell | day14/src/part2.rs:38-48 | one cell of the scan keeps the rolling invariant: a round rock moves to the insertion row (or stays there) and the row advances, a cube rock sets the insertion row just below it, an empty cell changes nothing; other columns are untouched |
| Day14Part2.RollWest | day14/src/part2.rs:55-74 | the grid after the in-place roll is every row of the old grid rolled to the left |
| Day14Part2.RollWestRow | day14/src/part2.rs:56-72 | the inner loop rolls one row and leaves every other row untouched |
| Day14Part2.WestCell | day14/src/part2.rs:59-69 | one cell of the row scan keeps the rolling invariant, as for a column; other rows are untouched |
| Day14Part2.RollSouth | day14/src/part2.rs:76-95 | the grid after the in-place roll is every column rolled to the bottom; the first insertion row is the last row |
| Day14Part2.RollSouthColumn | day14/src/part2.rs:77-93 | the downward scan with `saturating_sub` rolls the column read from the bottom and leaves every other column untouched |
| Day14Part2.SouthCell | day14/src/part2.rs:80-90 | one cell of the upward scan keeps the rolling invariant, with the insertion row stepping up by `saturating_sub`; other columns are untouched |
| Day14Part2.RollEast | day14/src/part2.rs:97-116 | the grid after the in-place roll is every row rolled to the right |
| Day14Part2.RollEastRow | day14/src/part2.rs:98-114 | the leftward scan with `saturating_sub` rolls the row read from the end and leaves every other row untouched |
| Day14Part2.EastCell | day14/src/part2.rs:101-111 | one cell of the leftward scan keeps the rolling invariant, with the insertion column stepping left by `saturating_sub`; other rows are untouched |
| Day14Part2.RollCycle | day14/src/part2.rs:27-32 | the four rolls in turn give one spin cycle of the old grid |
| Day14Part2.NorthKeepsRocks | day14/src/part2.rs:34-53 | rolling north keeps each column's number of round rocks and keeps every cube rock in place |
| Day14Part2.NorthPacked | day14/src/part2.rs:36-50 | after rolling north every round rock is on the top row or right below a rock |
| Day14Part2.NorthIdempotent | day14/src/part2.rs:34-53 | rolling north twice is rolling north once |
| Day14Part2.WestIsNorthTransposed | day14/src/part2.rs:55-74 | rolling west is rolling north on the transposed platform |
| Day14Part2.SouthIsNorthFlipped | day14/src/part2.rs:76-95 | rolling south is rolling north on the platform turned upside down |
| Day14Part2.EastIsWestMirrored | day14/src/part2.rs:97-116 | rolling east is rolling west on the mirrored platform |
| Day14Part2.NorthLoadByColumns | day14/src/part2.rs:118-123 | the load summed row by row, each round rock weighing the number of rows below and including its own, equals the load summed column by column |
| Day14Part2.Platform | day14/src/part2.rs:8-10 | a grid exists only for an input with lines whose bytes fill whole rows of the first line's width, and it has that width |
| Day14Part2.Position | day14/src/part2.rs:16 | the position found is the first earlier state equal to the current one, and none is found only when no earlier state is equal |
| Day14Part2.Shortcut | day14/src/part2.rs:16-19 | once the state after `n + 1` spins equals the one after `prev + 1`, the state after `cycles` spins is the one at the computed offset |
| Day14Part2.RepeatFound | day14/src/part2.rs:16-19 | the remembered state at `pos` is the state after `cycles` spins |
| Day14Part2.GetNorthLoadAfterCycles | day14/src/part2.rs:7-25 | no answer exactly when the input gives no grid; otherwise the north load after `cycles` spin cycles, with or without the shortcut |
| Day14Part2.Solve | day14/src/part2.rs:3-5 | the north load after a billion spin cycles |
| Day15Part1.HashFrom | day15/src/part1.rs:6-8 | the fold over a non-empty string ends below 256, and over the empty string leaves the start value |
| Day15Part1.Hash | day15/src/part1.rs:6-8 | every hash is below 256 |
| Day15Part1.HashFromAppend | day15/src/part1.rs:8 | one more byte is one more step `((acc + byte) * 17) % 256` of the fold |
| Day15Part1.HashFromConcat | day15/src/part1.rs:6-8 | hashing `a + b` is hashing `b` from the hash of `a` |
| Day15Part1.HashAppend | day15/src/part2.rs:35-40 | the hash of a string with one more byte follows from the hash of the string |
| Day15Part1.SumHashes | day15/src/part1.rs:5-10 | the sum of the step hashes is at most 255 per step |
| Day15Part1.SumHashesConcat | day15/src/part1.rs:10 | the sum over two runs of steps is the sum of their sums |
| Day15Part1.Solve | day15/src/part1.rs:1-11 | the answer for the comma-separated steps of the trimmed input is at most 255 per step |
| Day15Part2.ParseStep | day15/src/part2.rs:7-13 | a step ending in '-' removes the label before it; a step that sets a focal length has one below 256 and an '=' |
| Day15Part2.ParseFormat | day15/src/part2.rs:7-13 | reading a written step gives the step back, for labels without '=' |
| Day15Part2.ParseSteps | day15/src/part2.rs:6-13 | the steps are read exactly when every part reads, and in order |
| Day15Part2.Find | day15/src/part2.rs:14 | the slot found is the first holding the label, and none is found only when no slot holds it |
| Day15Part2.Take | day15/src/part2.rs:9 | the box keeps exactly the lenses with other labels |
| Day15Part2.TakeAbsent | day15/src/part2.rs:9 | removing an absent label leaves the box as it is |
| Day15Part2.TakeUnique | day15/src/part2.rs:9 | removing a lens keeps the labels of a box distinct |
| Day15Part2.Place | day15/src/part2.rs:14-18 | a present label gets the new focal length in its own slot; a new one goes to the back; other slots keep their lenses |
| Day15Part2.PlaceUnique | day15/src/part2.rs:14-18 | placing a lens keeps labels distinct, and the only lens with the label has the new focal length |
| Day15Part2.Apply | day15/src/part2.rs:7-19 | a step changes only the box its label hashes to |
| Day15Part2.ApplyPlaced | day15/src/part2.rs:7-19 | a step keeps every lens in the box of its hash, with labels distinct per box |
| Day15Part2.ArrangePlaced | day15/src/part2.rs:6-21 | after any sequence of steps every lens is in the box of its hash and no box holds a label twice |
| Day15Part2.RemoveClears | day15/src/part2.rs:7-9 | after `label-` no box holds that label |
| Day15Part2.PutSets | day15/src/part2.rs:11-18 | after `label=f` the box of the label holds it once, with focal length `f` |
| Day15Part2.SlotsPowerAppend | day15/src/part2.rs:24-31 | a lens pushed at the back of a box adds its slot number times its focal length |
| Day15Part2.SlotsPowerUpdate | day15/src/part2.rs:14-15 | a new focal length in a slot changes only that slot's share of the power |
| Day15Part2.EmptyPower | day15/src/part2.rs:2-32 | the 256 empty boxes have no focusing power |
| Day15Part2.Solve | day15/src/part2.rs:1-33 | no answer when a step cannot be read; otherwise the focusing power of the boxes after all steps |
| Day16Part1.TileOf | day16/src/part1.rs:71-84 | exactly the five tile bytes have a tile |
| Day16Part1.Next | day16/src/part1.rs:101-136 | the beam keeps its direction and moves one cell; from inside the grid it is none exactly when that cell is outside |
| Day16Part1.NextInGrid | day16/src/part1.rs:101-136 | a step that stays in the grid lands in the grid |
| Day16Part1.SplitHorizontal | day16/src/part1.rs:138-152 | a beam heading up or down becomes a right and a left beam at its position; one heading across is unchanged |
| Day16Part1.SplitVertical | day16/src/part1.rs:154-167 | a beam heading across becomes an up and a down beam at its position; one heading up or down is unchanged |
| Day16Part1.NwMirror | day16/src/part1.rs:170-178 | the `\` mirror keeps the position and turns the beam a quarter turn |
| Day16Part1.NeMirror | day16/src/part1.rs:180-188 | the `/` mirror keeps the position and turns the beam a quarter turn |
| Day16Part1.MirrorsInvolutions | day16/src/part1.rs:170-188 | each mirror undoes itself |
| Day16Part1.MirrorsOpposite | day16/src/part1.rs:170-188 | the two mirrors turn a beam different ways |
| Day16Part1.Advance | day16/src/part1.rs:35-40 | the advanced beams are exactly the steps of the given beams that stay in the grid |
| Day16Part1.Step | day16/src/part1.rs:31-57 | the beams leaving a tile are in the grid |
| Day16Part1.PathEndsIn | day16/src/part1.rs:25-58 | every beam with a trail from the start lies in every closed set holding the start |
| Day16Part1.EnergizedUnique | day16/src/part1.rs:25-58 | the set of beams the light reaches is determined by the contraption |
| Day16Part1.FrontierVisit | day16/src/part1.rs:25-57 | remembering a new beam and queueing the beams leaving its tile keeps the loop's invariant |
| Day16Part1.FrontierDrop | day16/src/part1.rs:26-27 | dropping a beam seen before keeps the loop's invariant |
| Day16Part1.FrontierDone | day16/src/part1.rs:25 | once the queue is empty the remembered beams are the energized set |
| Day16Part1.Explore | day16/src/part1.rs:19-58 | the remembered beams are the start, closed under leaving tiles, each with a trail from the start, and each processed once |
| Day16Part1.TilesOf | day16/src/part1.rs:14 | the tiles exist exactly when every byte is a tile |
| Day16Part1.Contraption | day16/src/part1.rs:7-17 | a contraption exists only for an input with lines of bytes that are tiles and fill whole rows of the first line's non-zero width |
| Day16Part1.Solve | day16/src/part1.rs:6-61 | no answer exactly when the input is no contraption; otherwise the number of distinct positions of the energized set |
| Day17Part2.Away | day17/src/part2.rs:93-126 | the block that far in that direction is inside the grid |
| Day17Part2.CostAhead | day17/src/part2.rs:140-170 | the cost plus the in-grid blocks among the first `steps` ahead is the cost plus the run to the nearer of `steps` and the edge |
| Day17Part2.MovesTurn | day17/src/part2.rs:87-136 | every pushed move turns off the axis and goes a length from 4 to 10 that stays inside the grid, costing the heat of every block entered |
| Day17Part2.SuccessorsTurn | day17/src/part2.rs:85-138 | each successor turns a quarter, travels 4 to 10 blocks inside the grid, and its cost is the state's plus the blocks entered, so costs never fall |
| Day17Part2.MovesCount | day17/src/part2.rs:91-110 | each length pushes at most two moves |
| Day17Part2.SuccessorsCount | day17/src/part2.rs:51-86 | a state has at most NEXT_STATES_MAX = 14 successors |
| Day17Part2.MovesShift | day17/src/part2.rs:89-114 | the moves depend on the cost only by adding it |
| Day17Part2.StartsFromCorner | day17/src/part2.rs:53-82 | the first start lengths are exactly the moves from the top-left block at no cost on either axis |
| Day17Part2.InitialAreMoves | day17/src/part2.rs:53-82 | the start states are the successors of a zero-cost crucible at the top-left block, facing down or right |
| Day17Part2.LeastHeatLossUnique | day17/src/part2.rs:8-32 | the least heat loss is a single number, and it exists only when the target is reachable |
| Day17Part2.PathInit | day17/src/part2.rs:20-28 | a route without its last state is a route, and the last state is a successor of the one before |
| Day17Part2.PathExtend | day17/src/part2.rs:25-26 | a route extended by a successor of its last state is a route |
| Day17Part2.CostGrows | day17/src/part2.rs:94-127 | the costs along a route never fall |
| Day17Part2.Least | day17/src/part2.rs:20-47 | the popped state is at most every queued state in the derived ordering (cost, then position, then direction) |
| Day17Part2.Without | day17/src/part2.rs:20 | popping removes one state and keeps every other queued state |
| Day17Part2.Frontier | day17/src/part2.rs:20-29 | a route to a key not yet visited is undercut by some queued state |
| Day17Part2.Popped | day17/src/part2.rs:20 | the state popped costs no more than any route to a key not yet visited |
| Day17Part2.Begin | day17/src/part2.rs:17-18 | the start states with an empty visited set satisfy the search invariant |
| Day17Part2.Drop | day17/src/part2.rs:25 | popping a state whose key is already visited keeps the invariant |
| Day17Part2.Visit | day17/src/part2.rs:25-26 | visiting the least state's key fixes its least cost and its successors cover what it leads to |
| Day17Part2.Extended | day17/src/part2.rs:26 | every queued successor ends a route one step longer than its parent's |
| Day17Part2.Expand | day17/src/part2.rs:24-27 | a first visit of a key that is not the target keeps the search invariant |
| Day17Part2.Arrived | day17/src/part2.rs:21-22 | the first state popped at the target costs the least heat loss |
| Day17Part2.Exhausted | day17/src/part2.rs:20-31 | an empty queue means no route reaches the target |
| Day17Part2.AllNodes | day17/src/part2.rs:18-25 | every in-grid key is among the finitely many keys the search can visit |
| Day17Part2.Lengthen | day17/src/part2.rs:92-133 | one length adds the block's heat to the running cost and pushes the state that stops there |
| Day17Part2.NextStates | day17/src/part2.rs:85-138 | the states pushed are the successors: for lengths 4 to 10, a state for each turn that stays inside the grid |
| Day17Part2.StartStates | day17/src/part2.rs:53-82 | the states pushed are the runs of 4 to 10 blocks right along the top row and down the left column |
| Day17Part2.Crucible | day17/src/part2.rs:15-32 | the answer is the least heat loss over all ultra-crucible routes to the bottom-right block, and there is none exactly when no route reaches it |
| Day17Part2.HeatsOf | day17/src/part2.rs:12 | the heats exist exactly when no byte is below '0', one per byte |
| Day17Part2.Heatmap | day17/src/part2.rs:9-14 | a map exists only for lines whose bytes fill whole rows of the first line's non-zero width |
| Day17Part2.Solve | day17/src/part2.rs:8-32 | no answer when the input is no map; otherwise the least heat loss, or none exactly when the target is unreachable |
| Day18Part1.Moved | day18/src/part1.rs:43-57 | a move exists exactly for the letters U, D, L and R; it stays on one axis and covers exactly the distance |
| Day18Part1.MovedBack | day18/src/part1.rs:43-57 | moving the same distance in the opposite direction returns to the start |
| Day18Part1.MovedShift | day18/src/part1.rs:43-57 | a move from a shifted start lands on the shifted end |
| Day18Part1.ParseLine | day18/src/part1.rs:41-42 | a parsed line is at least two bytes long; its direction is its first byte and its distance fits in a u32 |
| Day18Part1.ParseLineOfFormat | day18/src/part1.rs:41-42 | a line written as direction, space, distance, space, colour reads back as that direction and distance |
| Day18Part1.Create | day18/src/part1.rs:40-62 | a trench exists exactly when the line reads and its direction is known; it ends where the move lands and is as long as the distance |
| Day18Part1.DigSteps | day18/src/part1.rs:4-7 | each line's trench is made from where the previous trench ended |
| Day18Part1.Dig | day18/src/part1.rs:4-7 | the scan yields the trenches of the plan dug from the origin, or none when a line panics |
| Day18Part1.Windows | day18/src/part1.rs:14 | each window pairs a trench with the next one, the last pairing with the first |
| Day18Part1.FoldSums | day18/src/part1.rs:14-22 | the fold's perimeter is the total length and its two sums differ by the shoelace cross sum |
| Day18Part1.Lagoon | day18/src/part1.rs:14-24 | the volume is one plus half of the absolute cross sum plus the perimeter |
| Day18Part1.DigShift | day18/src/part1.rs:4-7 | digging from a shifted start gives the shifted trenches, and panics exactly when the unshifted dig does |
| Day18Part1.CrossShift | day18/src/part1.rs:14-22 | shifting every trench changes the cross sum by the shift times the total rise, and leaves the perimeter alone |
| Day18Part1.Circular | day18/src/part1.rs:14 | around the circular windows the coordinates rise by zero in total |
| Day18Part1.LagoonShift | day18/src/part1.rs:9-24 | shifting every trench leaves the volume unchanged |
| Day18Part1.StartAnywhere | day18/src/part1.rs:4-24 | the volume does not depend on where the digger starts |
| Day18Part1.RectangleDug | day18/src/part1.rs:40-62 | right w, down h, left w, up h puts the trench ends at the rectangle's corners |
| Day18Part1.RectangleLagoon | day18/src/part1.rs:3-24 | a w by h rectangular plan holds (w + 1) * (h + 1) cubic metres |
| Day18Part1.Solve | day18/src/part1.rs:3-25 | no answer exactly when some line panics; otherwise the lagoon volume of the dug trenches |
| Day18Part2.HexDigit | day18/src/part2.rs:42 | a hexadecimal digit of either case has a value below 16, and nothing else is a digit |
| Day18Part2.HexValueBound | day18/src/part2.rs:42 | n hexadecimal digits write a number below 16 to the n |
| Day18Part2.ParseHex | day18/src/part2.rs:42 | a base-16 parse succeeds only on an optional '+' and at least one hexadecimal digit, and always does when their value fits a u64; with or without the '+', the result is the value of the digits |
| Day18Part2.Letter | day18/src/part2.rs:43-50 | exactly the codes 0 to 3 name a direction, and each names one of U, D, L, R |
| Day18Part2.LetterCode | day18/src/part2.rs:43-50 | the codes and the directions correspond one to one |
| Day18Part2.Decode | day18/src/part2.rs:40-50 | a decoded instruction has a known direction and a distance below 16 to the 5 |
| Day18Part2.HexValueOfDigits | day18/src/part2.rs:42 | writing a number in enough hexadecimal digits and reading them back gives the number |
| Day18Part2.SplitAtColour | day18/src/part2.rs:41 | the first " (#" of a line is the one after a head without '(' |
| Day18Part2.DecodeAfterHead | day18/src/part2.rs:41-50 | after the head, the five digits give the distance and the next code the direction; otherwise the line panics |
| Day18Part2.DecodeOfFormat | day18/src/part2.rs:40-55 | a line whose colour encodes a direction and distance decodes to exactly those, whatever its letter and distance say |
| Day18Part2.DigAgree | day18/src/part2.rs:4-7 | two decoders that agree on every line dig the same trenches |
| Day18Part2.HonestPlan | day18/src/part2.rs:40-55 | a plan whose colours repeat its letters digs the same trenches in part 2 as in part 1 |
| Day18Part2.HexRectangleLagoon | day18/src/part2.rs:3-55 | a w by h rectangle hidden in the colours holds (w + 1) * (h + 1) cubic metres |
| Day18Part2.Solve | day18/src/part2.rs:3-25 | no answer exactly when some line panics; otherwise the lagoon volume of the decoded trenches |
| Day19SplitRange.Split | day19/src/split_range.rs:8-16 | the part below the value holds exactly the range's values below it and the other part the rest; their lengths add up to the range's, the lower part keeps the start and the upper part the end |
| Day19Part1.TrimStartChar | day19/src/part1.rs:103 | what remains is a suffix not starting with the character, and everything dropped was that character |
| Day19Part1.TrimEndChar | day19/src/part1.rs:59 | what remains is a prefix not ending with the character, and everything dropped was that character |
| Day19Part1.ParseAction | day19/src/part1.rs:37-45 | "A" and only "A" accepts, "R" and only "R" rejects, and any other text names the workflow it spells |
| Day19Part1.ParseCategory | day19/src/part1.rs:66-75 | exactly the letters x, m, a and s name a rating |
| Day19Part1.ParseCondition | day19/src/part1.rs:64-76 | a test is read exactly from a known rating letter followed by '<' or '>'; it is above for '>' and keeps the letter's rating and the value |
| Day19Part1.ParseRule | day19/src/part1.rs:62-87 | a rule without ':' always acts, with the action its whole text names |
| Text.ParseEach | day19/src/part1.rs:60-88 | the texts all parse exactly when each one does, and the results are theirs in order |
| Day19Part1.ParseRating | day19/src/part1.rs:106-110 | a rating read is a u16 |
| Day19Part1.ParsePart | day19/src/part1.rs:101-125 | the four ratings read are u16s |
| Day19Part1.IndexFacts | day19/src/part1.rs:5-9 | the map holds exactly the workflows' names, and of two workflows with one name the later is kept |
| Day19Part1.FirstMatch | day19/src/part1.rs:130-151 | no action exactly when no test holds; otherwise the action of a rule whose test holds and before which none does |
| Day19Part1.FirstMatchAt | day19/src/part1.rs:130-151 | the first rule whose test holds is the one that decides |
| Day19Part1.Visit | day19/src/part1.rs:129-152 | a visit fails exactly when the workflow is missing; it goes elsewhere only by the first matching rule's action |
| Day19Part1.RunMore | day19/src/part1.rs:128-153 | once reached, an outcome stays the same however many more visits are allowed |
| Day19Part1.TraceAdd | day19/src/part1.rs:128-152 | following i visits and then d more is following i + d visits |
| Day19Part1.RunShift | day19/src/part1.rs:128-152 | while the part keeps moving, running from the start is running from where the first k visits lead |
| Day19Part1.UnfinishedMoving | day19/src/part1.rs:128-152 | a run that has not finished moved on at every visit |
| Day19Part1.Cycle | day19/src/part1.rs:128-152 | visits that come back to their first workflow never finish |
| Day19Part1.Pigeonhole | day19/src/part1.rs:129 | more visits than workflows repeat a workflow |
| Day19Part1.Repeats | day19/src/part1.rs:128-152 | a part still moving after one more visit than there are workflows repeats a workflow |
| Day19Part1.Endless | day19/src/part1.rs:128-152 | a part still moving after one more visit than there are workflows never finishes |
| Day19Part1.IsAccepted | day19/src/part1.rs:127-154 | the verdict is the outcome the loop reaches, whatever the number of visits; unfinished exactly when the loop never ends |
| Day19Part1.Evaluate | day19/src/part1.rs:127-154 | the loops give the outcome of one visit more than there are workflows |
| Day19Part1.ParseTestedRule | day19/src/part1.rs:62-80 | a test, ':' and an action read back as the rule with that test and action |
| Day19Part1.ParseRuleOfText | day19/src/part1.rs:62-87 | a rule written out reads back as itself |
| Day19Part1.JoinLast | day19/src/part1.rs:61 | the joined rules end with the last rule's last character |
| Day19Part1.RuleTextShape | day19/src/part1.rs:59-61 | a written rule holds no ',' and does not end in '}' |
| Day19Part1.ParseRulesOfText | day19/src/part1.rs:60-88 | the rules written out read back as the rules |
| Day19Part1.ParseWorkflowOfText | day19/src/part1.rs:58-90 | a workflow written out reads back as itself |
| Day19Part1.ParseRatingOfText | day19/src/part1.rs:106-110 | a rating written out reads back as its value |
| Day19Part1.ParsePartOfRatings | day19/src/part1.rs:101-125 | four ratings without ',' between braces are read by position |
| Day19Part1.ParsePartOfText | day19/src/part1.rs:101-125 | a part written out reads back as itself when its ratings are u16s |
| Day19Part1.Unsettled | day19/src/part1.rs:11-16 | a part that gets stuck or never finishes leaves the whole sum without an answer |
| Day19Part1.SumAccepted | day19/src/part1.rs:11-16 | the loop gives the sum of the ratings of the accepted parts |
| Day19Part1.Solve | day19/src/part1.rs:3-17 | no answer when the input does not parse; otherwise the sum of the ratings of the accepted parts |
| Day19SplitRange.SplitExamples | day19/src/split_range.rs:25-31 | the seven worked splits of 0..10 and 1..10 come out as listed |
| Day19Part2.Init | day19/src/part2.rs:127-135 | the starting box is at workflow "in" and holds exactly the parts whose four ratings are all in 1..=4000 |
| Day19Part2.InitCombinations | day19/src/part2.rs:127-139 | the starting box holds 4000^4 = 256000000000000 combinations |
| Day19Part2.CombinationsBy | day19/src/part2.rs:137-139 | the combinations of a box are the length of any one range times the product of the other three |
| Day19Part2.ContainsWith | day19/src/part2.rs:141-201 | replacing one range changes membership only through that category's rating |
| Day19Part2.LiftCutParts | day19/src/part2.rs:144-150 | cutting one range at a value puts a part of the box on the low side exactly when its rating is below the value and on the high side otherwise |
| Day19Part2.LiftCutCombos | day19/src/part2.rs:144-150 | the two sides of a cut hold as many combinations as the box |
| Day19Part2.SplitParts | day19/src/part2.rs:141-201 | a part of the box lands in the passing box exactly when it passes the test and in the failing box exactly when it does not |
| Day19Part2.SplitCombos | day19/src/part2.rs:141-201 | the passing and failing boxes together hold as many combinations as the box |
| Day19Part2.SplitKeeps | day19/src/part2.rs:141-201 | an unconditional rule passes the whole box; a test leaves the other three ranges of both boxes unchanged |
| Day19Part2.WrappedTestParses | day19/src/part2.rs:87-104 | the rule "x>65535:A" is one the parser accepts |
| Day19Part2.WrappedTestPasses | day19/src/part2.rs:144-150 | with `value + 1` wrapping, "x>65535" passes a part with x = 1 from the starting box, which the corrected split does not |
| Day19Part2.SplitState | day19/src/part2.rs:141-201 | both parts keep the box's workflow id; Day19Part2.SplitParts and SplitCombos state which parts each holds |
| Day19Part2.SplitStateAsWritten | day19/src/part2.rs:144-150 | the split as written agrees with SplitState on every test except "greater than 65535" |
| Day19Part2.PiecesSound | day19/src/part2.rs:24-37 | a part in a piece of the fold was in the box, and the piece's action is that of the first rule the part passes |
| Day19Part2.PiecesComplete | day19/src/part2.rs:24-37 | a part of the box that passes some rule is in some piece of the fold |
| Day19Part2.PiecesId | day19/src/part2.rs:24-37 | every piece of the fold is still at the box's workflow |
| Day19Part2.PieceAt | day19/src/part2.rs:24-37 | the fold's kth piece is the first rule's passing box or the rest's piece from the failing box |
| Day19Part2.PieceOfRest | day19/src/part2.rs:24-37 | each piece of the rest of the fold from the failing box is a piece of the whole fold, one place on when the first rule passed a box |
| Day19Part2.LeftoverParts | day19/src/part2.rs:24-37 | what the fold drops after the last rule is exactly the parts of the box that pass no rule |
| Day19Part2.PiecesConserve | day19/src/part2.rs:24-37 | the pieces and the dropped leftover together hold as many combinations as the box |
| Day19Part2.SumStatesAppend | day19/src/part2.rs:15-38 | the combinations of two queues joined add up |
| Day19Part2.AcceptedAndForwarded | day19/src/part2.rs:26-34 | the accepted and forwarded pieces hold no more combinations than all pieces |
| Day19Part2.DrainBound | day19/src/part2.rs:15-38 | a finished count is at most the combinations of the boxes in the queue |
| Day19Part2.Unit | day19/src/part2.rs:117-124 | the box of a single part holds that part and no other |
| Day19Part2.UnitCombinations | day19/src/part2.rs:137-139 | the box of a single part holds one combination |
| Day19Part2.SplitUnit | day19/src/part2.rs:141-201 | a single part's box goes whole to the passing side when the part passes the test and whole to the failing side otherwise |
| Day19Part2.UnitPieces | day19/src/part2.rs:24-37 | folding a single part's box gives the one piece of the first rule it passes, or nothing |
| Day19Part2.NoMatchLoops | day19/src/part1.rs:127-154 | a part that passes no rule of its workflow does not finish in part 1 |
| Day19Part2.DrainWhole | day19/src/part2.rs:15-38 | a box passed whole to one action counts its combinations, nothing, or goes on at the next workflow |
| Day19Part2.DrainUnit | day19/src/part2.rs:15-38 | a single part's box counts 1 when accepted, 0 when rejected and moves on to the next workflow otherwise |
| Day19Part2.RunVisit | day19/src/part1.rs:127-154 | part 1 on a part that passes a rule accepts, rejects or moves on to the next workflow |
| Day19Part2.SingleAgrees | day19/src/part2.rs:15-38 | on the box of a single part, part 2 counts 1 when part 1 accepts it, 0 when part 1 rejects it, and panics where part 1 panics |
| Day19Part2.FoldStep | day19/src/part2.rs:24-37 | one closure step turns the pieces still to come from a box into the rule's piece and the pieces from the failing box |
| Day19Part2.ApplyRule | day19/src/part2.rs:25-36 | the closure adds the passing box's combinations when it accepts, queues it at its next workflow when it forwards, and hands on the failing box |
| Day19Part2.FoldRules | day19/src/part2.rs:24-37 | the fold adds the combinations of the accepted pieces and queues the forwarded ones in order |
| Day19Part2.DrainQueue | day19/src/part2.rs:15-38 | the queue loop from the starting box gives the drain of the starting box |
| Day19Part2.Drain | day19/src/part2.rs:15-38 | no contract of its own; Day19Part2.DrainBound, DrainWhole and SingleAgrees state what it counts |
| Day19Part2.ParseInput | day19/src/part2.rs:8-13 | no contract of its own; Day19Part2.Solve states that input without a blank line or with a workflow that does not parse panics |
| Day19Part2.Solve | day19/src/part2.rs:7-41 | no answer when the input does not split or parse; otherwise the drain of the starting box, at most 4000^4 |
| Day20Part1.ParseModule | day20/src/part1.rs:115-136 | a module line splits at " -> " and its destinations at ", "; a broadcaster is named "broadcaster", a flip-flop starts off and a conjunction with no memory |
| Day20Part1.ParseModuleText | day20/src/part1.rs:115-136 | a fresh module written as a line reads back as itself |
| Day20Part1.ParseModules | day20/src/part1.rs:18 | every line is read as a module, and the input fails exactly when some line does |
| Day20Part1.Wire | day20/src/part1.rs:30-39 | a conjunction gets a false memory for every module sending to it and fails when none does; other modules are kept |
| Day20Part1.WireAll | day20/src/part1.rs:28-39 | every module is wired, and wiring fails exactly when some conjunction has no sender |
| Day20Part1.Collect | day20/src/part1.rs:40-42 | every module is filed under its name |
| Day20Part1.CollectFrom | day20/src/part1.rs:40-42 | every module filed is one of those collected, under its own name |
| Day20Part1.CollectMemory | day20/src/part1.rs:19-39 | after wiring, a conjunction remembers exactly the modules that send to it, all false |
| Day20Part1.CollectConsistent | day20/src/part1.rs:17-43 | the collected network files each module under its name and each conjunction knows every sender in the network |
| Day20Part1.ReadInputMemory | day20/src/part1.rs:17-43 | a conjunction's memory starts false for exactly the modules of the input wired to it |
| Day20Part1.ReadInputConsistent | day20/src/part1.rs:17-43 | a network that was read is consistent |
| Day20Part1.Send | day20/src/part1.rs:64-70 | a module sends one pulse at the level to each destination, in order, from itself |
| Day20Part1.Receive | day20/src/part1.rs:61-95 | taking a pulse changes only a module's state, and fails exactly for a conjunction that does not know the sender |
| Day20Part1.BroadcasterForwards | day20/src/part1.rs:63-71 | the broadcaster keeps no state and forwards the level to every destination |
| Day20Part1.FlipFlopReacts | day20/src/part1.rs:83-93 | a flip-flop ignores a high pulse; a low pulse turns it over and it sends its new state |
| Day20Part1.FlipFlopTwice | day20/src/part1.rs:83-93 | two low pulses put a flip-flop back as it was |
| Day20Part1.ConjunctionReacts | day20/src/part1.rs:72-81 | a conjunction records the sender's level, keeps the others, and sends low exactly when all remembered levels are high |
| Day20Part1.Propagate | day20/src/part1.rs:54-59 | a settled run never lowers the counts, and counts every pulse that was on the queue |
| Day20Part1.CycleCountsButton | day20/src/part1.rs:48-59 | a press that settles has counted the button's low pulse |
| Day20Part1.ShapedKeeps | day20/src/part1.rs:61-95 | changing only module states keeps the network consistent and its pulses deliverable |
| Day20Part1.SentDeliverable | day20/src/part1.rs:64-92 | in a consistent network every pulse a module sends can be taken |
| Day20Part1.PropagateSafe | day20/src/part1.rs:54-97 | in a consistent network with deliverable pulses, handling pulses never panics and keeps the same modules, consistent |
| Day20Part1.CycleSafe | day20/src/part1.rs:45-100 | a press on a consistent network that takes the button's pulse never panics and leaves it so |
| Day20Part1.PressesCountButton | day20/src/part1.rs:8-12 | n settled presses count at least n low pulses |
| Day20Part1.PressesSafe | day20/src/part1.rs:8-12 | repeated presses on such a network never panic |
| Day20Part1.SolutionSafe | day20/src/part1.rs:3-15 | an input that was read, whose broadcaster takes the button's pulse, never panics, and its answer is the low total times the high total with at least 1000 low pulses |
| Day20Part1.Emit | day20/src/part1.rs:64-70 | the loop queues the module's pulses after those already queued |
| Day20Part1.Deliver | day20/src/part1.rs:61-95 | the match updates the destination's state and queues what it sends, failing exactly where the unwrap panics |
| Day20Part1.RunCycle | day20/src/part1.rs:45-100 | the queue loop gives the outcome of one press |
| Day20Part1.PressAll | day20/src/part1.rs:8-12 | the loop of presses adds up the counts of every press |
| Day20Part1.Solve | day20/src/part1.rs:3-15 | the answer of 1000 presses, or a panic when the input does not read |
| Grids.Get | day21/src/part1.rs:38 | a cell is found exactly inside the grid, negative indices included, and it is the grid's cell |
| Day21Part1.KeepValid | day21/src/part1.rs:32-34 | the filter keeps exactly the listed positions that are plots, and no more of them |
| Day21Part1.IsValidPos | day21/src/part1.rs:37-39 | a position is valid exactly when it is inside the grid on a '.' or the 'S' |
| Day21Part1.Neighbours | day21/src/part1.rs:25-39 | at most four positions, exactly the orthogonal neighbours that are '.' or 'S' inside the grid |
| Day21Part1.StepNeighbours | day21/src/part1.rs:17-21 | one fold step is the union of the neighbours of the positions before it |
| Day21Part1.StepFrom | day21/src/part1.rs:17-21 | a position after a step is a plot next to a position before it |
| Day21Part1.StepInto | day21/src/part1.rs:17-21 | a plot next to a position before a step is reached by that step |
| Day21Part1.ReachZero | day21/src/part1.rs:16-17 | with no steps the set is the start alone, of size 1 |
| Day21Part1.ReachPlots | day21/src/part1.rs:16-22 | after at least one step every position reached is a plot |
| Day21Part1.ParityFlips | day21/src/part1.rs:26-31 | every move flips the parity of row plus column |
| Day21Part1.ReachParity | day21/src/part1.rs:16-22 | after n steps every position has the start's parity plus n |
| Day21Part1.ReachHasWalk | day21/src/part1.rs:16-22 | every position reached after n steps ends a walk of n moves over plots from the start |
| Day21Part1.WalkReaches | day21/src/part1.rs:16-22 | the end of every such walk is reached after as many steps as it has moves |
| Day21Part1.AdjacentBack | day21/src/part1.rs:26-31 | the neighbour relation is symmetric |
| Day21Part1.ReachTwoMore | day21/src/part1.rs:16-22 | from a plot start, a position reached after n > 0 steps is reached again two steps later |
| Grids.OffsetIsProduct | day21/src/part1.rs:12 | a row's first cell is at the row times the width |
| Grids.Reshape | day21/src/part1.rs:12 | the bytes cut into the given number of rows of the given width |
| Grids.ReshapeAt | day21/src/part1.rs:12 | the cell at a row and a column is the byte at the row's offset plus the column |
| Grids.RowOfIndex | day21/src/part1.rs:13-14 | a byte's index divided by the width gives a row inside the grid and a column inside the row |
| Day21Part1.Layout | day21/src/part1.rs:12-13 | a grid read from the bytes has the given width and its start cell is 'S' |
| Day21Part1.ReadGarden | day21/src/part1.rs:10-14 | a grid is read only from an input with lines; its rows have the first line's width and its start cell is 'S' |
| Day21Part1.ReadGardenStart | day21/src/part1.rs:13 | the start is the first 'S' of the bytes in row order |
| Day21Part1.ReachableAfterZero | day21/src/part1.rs:5-23 | a readable input gives 1 for zero steps |
| Day21Part1.ReachableAfter | day21/src/part1.rs:9-23 | an answer exactly when the garden can be read: a first line that is not empty, all bytes filling whole rows of its width, and an 'S' |
| Day21Part1.Solve | day21/src/part1.rs:5-7 | an answer exactly when the garden can be read |
| Day22Part1.OverlapsShared | day22/src/part1.rs:69-75 | the range comparisons hold exactly when two non-empty ranges share a value |
| Day22Part1.SpanOf | day22/src/part1.rs:44 | the range from the smaller corner coordinate to the larger one plus one is non-empty |
| Day22Part1.SpanOfHolds | day22/src/part1.rs:44 | the range holds exactly the values between the two coordinates, both included |
| Day22Part1.ParseBrick | day22/src/part1.rs:40-50 | a parsed brick has cubes on every axis; none where an unwrap panics |
| Day22Part1.ParseCornerText | day22/src/part1.rs:42-43 | three printed numbers joined by commas parse back into the same corner |
| Day22Part1.ParseBrickText | day22/src/part1.rs:40-50 | a printed line of two corners parses into the brick spanning them |
| Day22Part1.SupportingShares | day22/src/part1.rs:69-75 | `is_supporting` holds exactly when the top of one brick is level with the bottom of the other and a column holds a cube of both |
| Day22Part1.DropDistance | day22/src/part1.rs:79-90 | a distance exactly when the other brick is under this one in a shared column, and never more than the brick's height |
| Day22Part1.DropOnto | day22/src/part1.rs:79-90 | dropping by the distance lands the brick on the other; dropping less leaves it the remaining distance above |
| Day22Part1.NoDropOntoSelf | day22/src/part1.rs:79-90 | a brick is never below itself |
| Day22Part1.MinDrop | day22/src/part1.rs:18-21 | none exactly when no brick is below; otherwise the distance to some brick below, no more than any other |
| Day22Part1.Insert | day22/src/part1.rs:16 | insertion adds the brick to the bricks, as a multiset |
| Day22Part1.InsertSorted | day22/src/part1.rs:16 | insertion keeps the bricks sorted by bottom height |
| Day22Part1.SortByBottom | day22/src/part1.rs:16 | the sort is a permutation of the bricks sorted by bottom height |
| Day22Part1.SettleOne | day22/src/part1.rs:17-30 | a turn moves only brick n, straight down, keeping its cubes |
| Day22Part1.SettleOneGround | day22/src/part1.rs:25-29 | a brick with nothing below drops to z = 1, or stays where it is at or below it |
| Day22Part1.SettleOneLands | day22/src/part1.rs:18-24 | a brick with something below lands on a brick it could hit, and stays above every other brick that was below it |
| Day22Part1.SettleSteps | day22/src/part1.rs:17-30 | after any number of turns the bricks keep their cubes |
| Day22Part1.SortedProper | day22/src/part1.rs:16 | sorting keeps every brick's cubes |
| Day22Part1.Settle | day22/src/part1.rs:15-31 | settling keeps the number of bricks |
| Day22Part1.LaterNotBelow | day22/src/part1.rs:16-21 | in the sorted stack no brick is above a later one |
| Day22Part1.SettleOneAboveGround | day22/src/part1.rs:17-30 | no turn takes a brick below z = 1 |
| Day22Part1.SettleStepsAboveGround | day22/src/part1.rs:17-30 | no number of turns takes a brick below z = 1 |
| Day22Part1.SettleAboveGround | day22/src/part1.rs:15-31 | bricks that start at z = 1 or higher are still there after settling |
| Day22Part1.SettleOneKeepsRest | day22/src/part1.rs:17-30 | a turn keeps every earlier brick resting |
| Day22Part1.SettleOneRests | day22/src/part1.rs:17-30 | when no later brick is below it, a brick rests after its turn |
| Day22Part1.SettleStepsRest | day22/src/part1.rs:17-30 | after n turns the later bricks are untouched and every earlier brick rests on the ground or an earlier brick |
| Day22Part1.SettleStepsLowered | day22/src/part1.rs:17-30 | after n turns every brick is the sorted brick lowered straight down |
| Day22Part1.SettleLowers | day22/src/part1.rs:15-31 | settling sorts the bricks and lowers each straight down |
| Day22Part1.SettleRests | day22/src/part1.rs:15-31 | after settling every brick rests on the ground or on a brick before it |
| Day22Part1.SettleBrick | day22/src/part1.rs:18-29 | the in-place turn gives the turn of the model |
| Day22Part1.Sort | day22/src/part1.rs:16 | the in-place sort gives the sorted stack |
| Day22Part1.SettleStack | day22/src/part1.rs:15-31 | the in-place sort and loop give the settled stack |
| Day22Part1.Supporters | day22/src/part1.rs:61-66 | no more than the stack's size, and zero exactly when nothing holds the brick up |
| Day22Part1.SupportersMoreThanOne | day22/src/part1.rs:61-66 | a brick held up by brick i has more than one supporter exactly when a brick at another place holds it up too |
| Day22Part1.AllHeldElsewhere | day22/src/part1.rs:53-58 | every brick this one holds up has more than one supporter |
| Day22Part1.IsSafeIff | day22/src/part1.rs:53-58 | a brick is safe exactly when every brick it holds up is held up by a brick at another place |
| Day22Part1.TopIsSafe | day22/src/part1.rs:53-58 | a brick that holds nothing up is safe |
| Day22Part1.CountSafe | day22/src/part1.rs:8-11 | the count is no more than the bricks counted |
| Day22Part1.ParseBricks | day22/src/part1.rs:4 | every line parses, in order, into a brick with cubes; none exactly when a line does not |
| Day22Part1.Highest | day22/src/part1.rs:53-58 | the brick with the highest top |
| Day22Part1.HighestIsSafe | day22/src/part1.rs:53-58 | the brick with the highest top is safe |
| Day22Part1.CountSafeAtLeastOne | day22/src/part1.rs:8-11 | one safe brick makes the count at least 1 |
| Day22Part1.SettledProper | day22/src/part1.rs:15-31 | settled bricks keep their cubes |
| Day22Part1.SafeCount | day22/src/part1.rs:3-12 | no more than the number of bricks |
| Day22Part1.SafeCountPositive | day22/src/part1.rs:3-12 | a non-empty stack has at least one safe brick |
| Day22Part1.SafeCountOf | day22/src/part1.rs:4-11 | settling in place and counting gives the answer of the model |
| Day22Part1.Solve | day22/src/part1.rs:3-12 | the count of safe bricks, or none exactly when a line does not parse |
| Day22Part2.IsSupported | day22/src/part2.rs:69-74 | a brick that has not fallen holds this one up |
| Day22Part2.SupportedAntitone | day22/src/part2.rs:69-74 | removing more bricks never gives a brick more support |
| Day22Part2.Cascade | day22/src/part2.rs:56-64 | the fallen bricks only grow; every new one was above the ground with all its supporters fallen; and one above the ground whose supporters had all fallen from the start falls |
| Day22Part2.ChainReactionCount | day22/src/part2.rs:55-67 | the number of fallen bricks other than the disintegrated one |
| Day22Part2.FallenAboveGround | day22/src/part2.rs:55-67 | only bricks of the stack above z = 1 fall |
| Day22Part2.SafeLeavesSupported | day22/src/part2.rs:69-74 | once a safe brick is gone, every brick above the ground is still held up |
| Day22Part2.SafeCascade | day22/src/part2.rs:55-67 | disintegrating a safe brick makes nothing fall |
| Day22Part2.UnsafeWitness | day22/src/part1.rs:53-58 | an unsafe brick holds up a brick that no brick at another place holds up |
| Day22Part2.UnsafeCascade | day22/src/part2.rs:55-67 | disintegrating an unsafe brick makes at least one other fall |
| Day22Part2.ChainReactionIffUnsafe | day22/src/part2.rs:55-67 | on a settled stack nothing else falls exactly when part 1 calls the brick safe |
| Day22Part2.TotalFallsAtLeast | day22/src/part2.rs:9-13 | every unsafe brick adds at least one to the sum |
| Day22Part2.ChainTotalAtLeast | day22/src/part2.rs:4-14 | the part 2 answer is at least the number of bricks part 1 calls unsafe |
| Day22Part2.ChainTotalOf | day22/src/part2.rs:5-13 | settling in place and summing gives the answer of the model |
| Day22Part2.Solve | day22/src/part2.rs:4-14 | the sum of chain reactions, or none exactly when a line does not parse |
| Day23Part1.ColOf | day23/src/part1.rs:100-106 | the column of an id is below the width and row times width plus column gives the id back |
| Day23Part1.FromNode | day23/src/part1.rs:96-98 | while the row-major index is below 65536, the id is that index |
| Day23Part1.RowOf | day23/src/part1.rs:100-102 | the row whose range of indexes holds the id |
| Day23Part1.NodeIdRoundTrip | day23/src/part1.rs:96-106 | an in-range node read back from its id gives its row and column |
| Day23Part1.NodeIdInjective | day23/src/part1.rs:96-98 | two in-range nodes have the same id exactly when they are the same node |
| Day23Part1.NodeIdWraps | day23/src/part1.rs:96-98 | the cast to 16 bits makes ids that differ by 65536 collide |
| Day23Part1.Opposite | day23/src/part1.rs:126-133 | the opposite direction is never the direction itself |
| Day23Part1.OppositeInvolution | day23/src/part1.rs:126-133 | the opposite of the opposite is the direction |
| Day23Part1.NeighbourBack | day23/src/part1.rs:247-301 | stepping to a neighbour and back in the opposite direction returns to the node |
| Day23Part1.StepNeighbour | day23/src/part1.rs:226-245 | a step moves to the neighbour, and saturates to the same node at the top or left edge |
| Day23Part1.TryStepOpen | day23/src/part1.rs:247-301 | a step is possible exactly when the neighbour exists in the grid and holds '.' or the slope for that direction, and then it reaches the neighbour |
| Day23Part1.TryStep | day23/src/part1.rs:247-301 | no contract of its own; Day23Part1.TryStepOpen states when a step succeeds and where it goes |
| Day23Part1.NextPositions | day23/src/part1.rs:196-223 | four candidate positions, one per direction |
| Day23Part1.NextPositionsAt | day23/src/part1.rs:196-223 | the slot of the way back is empty and every other slot is that direction's try-step |
| Day23Part1.OnlyWay | day23/src/part1.rs:146-161 | a single way on exactly when one slot is open, and that slot is open |
| Day23Part1.AllClosed | day23/src/part1.rs:162 | no way on exactly when no slot is open |
| Day23Part1.Corridor | day23/src/part1.rs:144-189 | a junction the walk stops at is at least as long as the walk so far |
| Day23Part1.CorridorJunction | day23/src/part1.rs:162-163 | a walk stops at a junction with its candidate positions where it does not have exactly one way on, and only at the target when no way is open |
| Day23Part1.CorridorFollows | day23/src/part1.rs:143-161 | the walk to a junction is a sequence of open moves, one per length unit, from the first cell to the junction, that never turns back |
| Day23Part1.AddEdge | day23/src/part1.rs:164-170 | the edge is appended to the key's list (created empty if missing) and every other key keeps its list |
| Day23Part1.Pushes | day23/src/part1.rs:171-185 | one corridor start per open way on, in slot order, then the way back, and nothing else |
| Day23Part1.ExploreStep | day23/src/part1.rs:141-191 | one iteration of the outer loop takes the exploration to its next state, or fails where the source does |
| Day23Part1.AddTraced | day23/src/part1.rs:164-170 | adding an edge walked from a node keeps every edge of the graph traced to a walked corridor |
| Day23Part1.ExploreTraced | day23/src/part1.rs:136-194 | every edge of the built graph is the edge of a corridor walked from a node with its key |
| Day23Part1.EdgeWalk | day23/src/part1.rs:143-170 | an edge's length is one plus the moves of a walk without U-turns that reaches the node its target id names |
| Day23Part1.EnteredAppend | day23/src/part1.rs:71-76 | the nodes a route entered grow by the node of the edge just taken |
| Day23Part1.VisitRealizes | day23/src/part1.rs:66-79 | the state pushed for an edge not yet entered stands for the route extended by that edge |
| Day23Part1.ExpandRealizes | day23/src/part1.rs:66-79 | every state pushed for a node's edges stands for a route of the graph without repeated nodes |
| Day23Part1.RealizeRest | day23/src/part1.rs:62 | popping the front of the queue keeps every remaining state backed by a route |
| Day23Part1.RealizeJoin | day23/src/part1.rs:68 | appending backed states to a backed queue leaves every state backed |
| Day23Part1.SearchSound | day23/src/part1.rs:62-81 | every maximum the search records is the length of a hike from the start to the target |
| Day23Part1.LongestPathIsHike | day23/src/part1.rs:54-84 | a positive longest path is the length of a route through the graph from start to target that enters no node twice |
| Day23Part1.LongestPathAtTarget | day23/src/part1.rs:62-64 | from the target to itself the longest path is 0 |
| Day23Part1.Search | day23/src/part1.rs:62-81 | a search that finishes answers at least the best so far and at least the distance of every queued state at the target |
| Day23Part1.ReadTrails | day23/src/part1.rs:6-13 | a grid read from the input has rows of the first line's width, at least two columns and at least one row |
| Day23Part1.AnswerIsHike | day23/src/part1.rs:5-25 | a positive answer is the length of a hike from (0, 1) to the last row, last column but one, through a graph whose every edge is a walked corridor |
| Day23Part1.WalkCorridor | day23/src/part1.rs:143-189 | the corridor loop ends with the walk of the model |
| Day23Part1.BuildGraph | day23/src/part1.rs:136-194 | the queue loop builds the graph of the model |
| Day23Part1.ExploreFrom | day23/src/part1.rs:141-191 | the queue loop from any state ends with the exploration of the model |
| Day23Part1.Turn | day23/src/part1.rs:141-190 | one pop of the queue advances the exploration by one step |
| Day23Part1.VisitEntry | day23/src/part1.rs:141-190 | visiting a queue entry gives the step of the model |
| Day23Part1.PushEdges | day23/src/part1.rs:66-79 | the for loop pushes exactly the states the model expands a node to |
| Day23Part1.LongestPathOf | day23/src/part1.rs:54-84 | the queue loop of `longest_path` ends with the search of the model |
| Day23Part1.Solve | day23/src/part1.rs:5-25 | the solve method gives the answer of the model |
| Day23Part1.HikesOf | day23/src/part1.rs:9-24 | the graph and longest path from the fixed start and target give the model's value |
| Day23Part1.HikesBetweenOf | day23/src/part1.rs:15-24 | building the graph and then searching it gives the model's value for any start and target |
| Day24Part2.Quot | day24/src/part2.rs:87 | BigInt division: the size of the quotient is the size of the dividend over the size of the divisor, and its sign is the product of signs (truncation toward zero) |
| Day24Part2.QuotExact | day24/src/part2.rs:86-87 | an exact quotient comes out whatever the signs, which is what the debug assertions check |
| Day24Part2.Keep | day24/src/part2.rs:54-57 | the rows kept are exactly the given rows with no zero among the first `unknowns` entries |
| Day24Part2.KeepShaped | day24/src/part2.rs:55-57 | the kept rows keep their shape and have a non-zero first coefficient |
| Day24Part2.Combine | day24/src/part2.rs:68-76 | combining two rows drops the first entry, one entry fewer than the shorter row |
| Day24Part2.Windows | day24/src/part2.rs:68 | one combined row for each row and the one after it, in order |
| Day24Part2.WindowsShaped | day24/src/part2.rs:68-76 | combining neighbours takes one unknown out of every row |
| Day24Part2.SolveEquations | day24/src/part2.rs:53-90 | a result has one value per unknown |
| Day24Part2.Eliminate | day24/src/part2.rs:58-89 | a result after filtering has one value per unknown |
| Day24Part2.Substitute | day24/src/part2.rs:80-88 | back-substitution puts one value in front of the values already found |
| Day24Part2.SolveOne | day24/src/part2.rs:58-63 | with one unknown there is a result exactly when some row has a non-zero coefficient, and it is that row's right-hand side over its coefficient |
| Day24Part2.DotTruncate | day24/src/part2.rs:81-85 | `zip` reads only as far as the shorter side |
| Day24Part2.DotMix | day24/src/part2.rs:74 | the combination of two rows applied to the unknowns is the same combination of the two rows' sums |
| Day24Part2.CombineSatisfied | day24/src/part2.rs:67-76 | unknowns that satisfy two rows satisfy their combination without the first unknown |
| Day24Part2.WindowsSatisfied | day24/src/part2.rs:68-78 | the next system is satisfied by the remaining unknowns |
| Day24Part2.KeepSatisfied | day24/src/part2.rs:55-57 | dropping rows keeps a solution a solution |
| Day24Part2.BackSubstitute | day24/src/part2.rs:80-88 | back-substitution with a row the unknowns satisfy gives back exactly those unknowns |
| Day24Part2.SolveLast | day24/src/part2.rs:58-63 | with one unknown the quotient is the unknown that satisfies the row |
| Day24Part2.SolveEquationsSound | day24/src/part2.rs:53-90 | when integer unknowns satisfy every equation, any result of the elimination is exactly those unknowns |
| Day24Part2.EliminateSound | day24/src/part2.rs:58-89 | the same for the rows left after filtering |
| Day24Part2.HitsMeet | day24/src/part2.rs:10-22 | a rock that meets a hailstone at some time has its offset parallel to their relative velocity, along x-y and along x-z |
| Day24Part2.PairRowSatisfied | day24/src/part2.rs:13-21 | two meeting conditions, with their shared product terms cancelled, give the pair's row, satisfied by (x position, x velocity, y position, y velocity) |
| Day24Part2.MeetingDifference | day24/src/part2.rs:13-21 | the difference of two hailstones' meeting conditions is linear in the rock's unknowns, with the pair's coefficients and right-hand side |
| Day24Part2.Pairs | day24/src/part2.rs:12 | every pair is two hailstones, the earlier one first |
| Day24Part2.PairsComplete | day24/src/part2.rs:12 | every pair of an earlier and a later hailstone occurs, at its place in the order `tuple_combinations` lists them |
| Day24Part2.PairsCount | day24/src/part2.rs:12 | there are n·(n-1)/2 pairs of n hailstones |
| Day24Part2.XyRows | day24/src/part2.rs:10-23 | one row of four coefficients and a right-hand side per pair |
| Day24Part2.XzRows | day24/src/part2.rs:30-43 | the same along x and z |
| Day24Part2.XyRowsSatisfied | day24/src/part2.rs:10-23 | a rock that meets every hailstone along x and y satisfies every x-y row |
| Day24Part2.XzRowsSatisfied | day24/src/part2.rs:30-43 | the same along x and z |
| Day24Part2.RockSum | day24/src/part2.rs:25-50 | a result fits in `i64` |
| Day24Part2.RockSumOfHits | day24/src/part2.rs:7-51 | for a rock that hits every hailstone, a result is the sum of the rock's starting coordinates |
| Day24Part2.ParseI64 | day24/src/part2.rs:105-112 | a parsed number is a signed decimal within `i64` |
| Day24Part2.ParseTriple | day24/src/part2.rs:105-112 | three values need three comma-separated fields, and they are the signed-integer values of the first three fields, trimmed |
| Day24Part2.ParseHailstone | day24/src/part2.rs:103-121 | a line is a hailstone only when it has a " @ " separator |
| Day24Part2.ParseHailstoneOfText | day24/src/part2.rs:103-121 | a hailstone written as position " @ " velocity, with ", " between numbers, parses back to itself |
| Day24Part2.Solve | day24/src/part2.rs:7-51 | there is a result only when every line is a hailstone |
| Day24Part2.SolveOfHits | day24/src/part2.rs:7-51 | for an input whose hailstones a rock hits, a result is the sum of the rock's starting coordinates |
| Day24Part2.ExampleRock | day24/src/part2.rs:131-135 | the five hailstones of the example are all hit by the rock from (24, 13, 10) at velocity (-3, 1, 2), so if the elimination gives a result for them, that result is 47 |

## Left out

- The example-answer tests read `example.txt`, `example2.txt` and the answer files, which are not part of this model. So their totals are not stated, with two exceptions. The inline tests of `split_range` are stated by `Day19SplitRange.SplitExamples`. The rock of the puzzle statement's five hailstones is stated by `Day24Part2.ExampleRock`, under the condition given below.
- Benchmarks, the `main.rs` files and the `lib.rs` re-export files are left out: they only load input and call the solvers.
- The duplicate parts are left out because they repeat modelled code:
  - the part files of days 2 to 6;
  - day 11 part 1, which is part 2 with expansion 1;
  - day 16 part 2, which is part 1 started from every edge.
- Rayon's `par_lines` and `par_iter` are modelled as sequential sums and minimums. The results are the same because the parallel sums and minimums are order-independent.
- The regex-based solver of day 1 (`day01/src/lib.rs`) is left out because it depends on the regex crate's capture semantics.
- Day 17 part 1 is left out because it delegates to the `pathfinding` crate.
- Day 24 part 1 is left out because it computes with floating point.
- Day 20 part 2, day 8 part 2 and day 21 part 2 are left out. They rely on the specific shape of the real puzzle input (a least common multiple of cycle lengths) or are unfinished.
- Day 25 is left out: a parallel brute force over a library's connected components with a progress bar.
- Debug printing is not modelled. This covers `print_graph` of day 23 and the progress output of day 25.
- Fixed-width integer arithmetic is unbounded in the model. `usize`, `u32`, `i32`, `i64` and `u64` overflow is not modelled, apart from three exceptions:
  - the `u16` wrap of day 19 part 2 (see Findings);
  - the `u16` cast in the `NodeId` of day 23;
  - the checked `to_i64` conversion of day 24.
- Day17Part2.Heat: a byte below '0' gives no digit. In a debug build the `u8` subtraction panics; the release-build wrap-around is not modelled.
- Day14Part2.Solve: every byte other than 'O' and '#' is read as an empty cell. The source keeps such a byte until a rock rolls onto it, and it compares whole byte grids when it looks for a repeat. Puzzle inputs hold only '.', 'O' and '#'.
- Day07Part1.Sort and Day22Part1.Sort: the contracts state a sorted permutation, not stability. Both are insertion sorts that keep equal keys in input order, as the library's stable sorts do, but that is not proved. In day 7 it decides the order of equal hands with different bids.
- Day07Part2.SortHands, Day07Part2.RankHands and Day07Part2.SolvePart2: the contracts state a sorted permutation, not stability. `hands.sort()` is stable and `Hand::cmp` ignores the bid, so identical hands with different bids keep their input order and that order decides the winnings; the insertion sort only swaps strictly greater neighbours, which keeps that order, but this is not proved.
- Day08Part1.Solve, Day10Part1.Solve, Day19Part2.DrainQueue and Day20Part1.RunCycle: each run is bounded by a `fuel` parameter. Running out of fuel is an outcome of its own and says nothing about whether the source would stop.
- Day23Part1.Solve, Day23Part1.BuildGraph and Day23Part1.LongestPathOf: as above, the fuel bound means `None` covers both a panic and a search that would not stop.
- Day19Part2.DrainQueue: what is proved is that the count is bounded by the parts of the boxes drained (`DrainBound`), and that a box of a single part is counted exactly when part 1 accepts that part (`SingleAgrees`). It is not proved that the count equals the number of accepted parts of every box.
- Day22Part2.ChainTotalAtLeast and Day22Part2.ChainReactionIffUnsafe: these require the settled bricks to be distinct. The source identifies fallen bricks in a `HashSet` by value, so two bricks with equal coordinates would be conflated.
- Day23Part1.AnswerIsHike and Day23Part1.LongestPathIsHike: only soundness is proved, namely that a positive answer is the length of some hike that repeats no node. That the answer is the longest hike is not proved.
- Day23Part1.LongestPathOf: the visited set of `longest_path` starts without the start node, as in the source, so a path may come back to the start.
- Day23Part1.RowOf and Day23Part1.ColOf: these require a grid with at least one column, where the source would divide by zero.
- Day24Part2.SolveEquations: it requires at least one unknown, and every row to hold one entry per unknown plus the constant. The source's own rows always have that shape. On other input it underflows or panics, at a point that depends on the laziness of its iterators.
- Day24Part2.SolveEquationsSound: only soundness is proved, namely that when the system has an integer solution, any result equals it. That a result exists is not proved.
- The `debug_assert!`s are not modelled, because they are absent from release builds: the "Time" and "Distance" label checks of day 6 (day06/src/lib.rs:21,27), the check that a day 13 pattern has exactly one line of reflection (day13/src/part1.rs:22 and day13/src/part2.rs:29), the rating-label checks of day 19 (day19/src/part1.rs:109-121), and the exact-division checks of day 24 part 2. A pattern with no line of reflection, or with more than one, is scored as the release build scores it.
- Day24Part2.ExampleRock: it proves the answer 47 only for the case where `RockSum` gives a result on the example. That the elimination succeeds on those five hailstones is not proved: working through its literal rows level by level is beyond what the verifier checks within its resource limit.
- Text.Trim: `IsWhitespace` takes the Unicode White_Space property to be fixed at the characters it lists, while `char::is_whitespace` follows the Unicode version of the standard library.
- Day24Part2.XyRows and Day24Part2.XzRows: the `i64` arithmetic that builds the rows is unbounded.

## Findings

| source | as written | input that shows it | evidently intended | confidence | as-written member | corrected member |
|---|---|---|---|---|---|---|
| day03/src/lib.rs:92-104 | `gear_ratio_calculator` slices the lines above and below with `&prev[start..end]`; for the first and the last line that line is the empty padding line, so the slice panics, and so it does on a neighbour line shorter than the window | a '*' anywhere on the first line of the schematic | the padding line contributes no numbers, as `str::get` does in part 1 | not executed | Day03.GearOnFirstLinePanics | Day03.GearRatio |
| day05/src/lib.rs:135-142 | `convert_range` pushes the destination range even when the map line has length 0, and the minimum is taken over range starts | seed range 5..15 through one map line "0 10 0" gives minimum 0, while every seed of the range has location at least 5 | empty ranges hold no location and are skipped | not executed | Day05.EmptyMapRangeSkewsMinimum | Day05.SeedRangeMinimum |
| day06/src/lib.rs:34-46 | `count_win_scenarios` answers `t + 1 - 2 * (t / 2)` when even the half-way hold time does not beat the record | race of 2 ms with record 1: no hold time wins, the answer is 1 | 0 ways to win | not executed | Day06.UnbeatableRecordCountsOne | Day06.CountWins |
| day10/src/part1.rs:44 | the south and east neighbours of the start are read at `(row + 1).clamp(0, map.len())`, which is out of bounds when the start is on the last row or column | grid "F7" / "SJ": the start is on the last row | no south or east neighbour outside the grid | not executed | Day10Part1.StartOnLastRowPanics | Day10Part1.StartDirectionsConnect |
| day10/src/part2.rs:96-104 | part 2 repeats the clamped reads `map[(start_row + 1).clamp(0, map.len())]` and `map[start_row][(start_column + 1).clamp(0, map[start_row].len())]`, out of bounds when the start is on the last row or column | the 3-by-3 pipe loop "F-7", then a vertical pipe, a ground tile and "S", then "L-J": the start is on the last column | no south or east neighbour outside the grid | not executed | Day10Part2.StartOnLastColumnPanics | Day10Part1.StartDirectionsConnect |
| day19/src/part2.rs:144-150 | a test `x>v` splits at `v + 1` on a `u16`, which wraps to 0 for v = 65535 in a release build | rule "x>65535:A": every part of the box passes | no part passes | not executed | Day19Part2.WrappedTestPasses | Day19Part2.SplitParts |
