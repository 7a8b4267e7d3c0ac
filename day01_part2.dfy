/** Day 1, part 2: digits may also be spelled out ("one" .. "nine"); a table lookup at
    every position finds the first and the last digit of a line. */
module Day01Part2 {
  import opened Text

  /** The lookup table, in the order it is searched: the words first, then the digits. */
  const LUT: seq<(string, nat)> := [
    ("one", 1), ("two", 2), ("three", 3), ("four", 4), ("five", 5),
    ("six", 6), ("seven", 7), ("eight", 8), ("nine", 9),
    ("1", 1), ("2", 2), ("3", 3), ("4", 4), ("5", 5),
    ("6", 6), ("7", 7), ("8", 8), ("9", 9)
  ]

  predicate StartsWith(s: string, prefix: string)
  {
    |prefix| <= |s| && s[..|prefix|] == prefix
  }

  /** Table entry `k` is a prefix of `s`. */
  predicate Matches(s: string, k: nat)
    requires k < |LUT|
  {
    StartsWith(s, LUT[k].0)
  }

  /** The first entry at or after `from` that is a prefix of `s`. */
  function FirstEntry(s: string, from: nat): (r: Option<nat>)
    requires from <= |LUT|
    ensures r.Some? ==> from <= r.value < |LUT| && Matches(s, r.value)
    ensures r.Some? ==> forall j :: from <= j < r.value ==> !Matches(s, j)
    ensures r.None? ==> forall j :: from <= j < |LUT| ==> !Matches(s, j)
    decreases |LUT| - from
  {
    if from == |LUT| then None
    else if Matches(s, from) then Some(from)
    else FirstEntry(s, from + 1)
  }

  /** `lookup_digit`: the digit of the first table entry that is a prefix of `s`. */
  function LookupDigit(s: string): (r: Option<nat>)
  {
    match FirstEntry(s, 0)
    case Some(k) => Some(LUT[k].1)
    case None => None
  }

  /** The lookup succeeds on the text from position `x` of the line on. */
  predicate Found(line: string, x: nat)
    requires x <= |line|
  {
    LookupDigit(line[x..]).Some?
  }

  /** The digit the lookup finds from position `x` of the line on. */
  function DigitAt(line: string, x: nat): nat
    requires x <= |line| && Found(line, x)
  {
    LookupDigit(line[x..]).value
  }

  /** Where the lookup succeeds, position by position. */
  function Hits(line: string): (h: seq<bool>)
    ensures |h| == |line| && forall x :: 0 <= x < |line| ==> h[x] == Found(line, x)
  {
    seq(|line|, x requires 0 <= x < |line| => Found(line, x))
  }

  /** The smallest position at or after `from` where a digit is found. */
  function FirstPosition(hits: seq<bool>, from: nat): (r: Option<nat>)
    requires from <= |hits|
    ensures r.Some? ==> from <= r.value < |hits| && hits[r.value]
    ensures r.Some? ==> forall x :: from <= x < r.value ==> !hits[x]
    ensures r.None? ==> forall x :: from <= x < |hits| ==> !hits[x]
    decreases |hits| - from
  {
    if from == |hits| then None
    else if hits[from] then Some(from)
    else FirstPosition(hits, from + 1)
  }

  /** The largest position below `upto` where a digit is found. */
  function LastPosition(hits: seq<bool>, upto: nat): (r: Option<nat>)
    requires upto <= |hits|
    ensures r.Some? ==> r.value < upto && hits[r.value]
    ensures r.Some? ==> forall x :: r.value < x < upto ==> !hits[x]
    ensures r.None? ==> forall x :: 0 <= x < upto ==> !hits[x]
  {
    if upto == 0 then None
    else if hits[upto - 1] then Some(upto - 1)
    else LastPosition(hits, upto - 1)
  }

  /** The value of a line: the digit found at the first position times ten plus the digit
      found at the last position; the two matches may overlap. */
  function CalibrationValue(line: string): (r: Option<nat>)
    ensures r.None? <==> forall x :: 0 <= x < |line| ==> !Found(line, x)
  {
    var hits := Hits(line);
    match FirstPosition(hits, 0)
    case None => None
    case Some(f) =>
      var l := LastPosition(hits, |line|).value;
      Some(DigitAt(line, f) * 10 + DigitAt(line, l))
  }

  /** Both digits are between 1 and 9, so a value lies between 11 and 99. */
  lemma CalibrationValueBounds(line: string)
    ensures CalibrationValue(line).Some? ==> 11 <= CalibrationValue(line).value <= 99
  {
    var hits := Hits(line);
    var f := FirstPosition(hits, 0);
    if f.Some? {
      var l := LastPosition(hits, |line|).value;
      LookupIsDigit(line[f.value..]);
      LookupIsDigit(line[l..]);
    }
  }

  /** The value of a line is ten times the digit found at the leftmost position where one
      is found, plus the digit found at the rightmost such position. */
  lemma {:induction false} CalibrationValueOfEnds(line: string, f: nat, l: nat)
    requires f < |line| && Found(line, f) && forall x :: 0 <= x < f ==> !Found(line, x)
    requires l < |line| && Found(line, l) && forall x :: l < x < |line| ==> !Found(line, x)
    ensures CalibrationValue(line).Some? && CalibrationValue(line).value == DigitAt(line, f) * 10 + DigitAt(line, l)
  {
    var hits := Hits(line);
    FirstPositionIsLeast(hits, f);
    LastPositionIsGreatest(hits, l);
  }

  lemma FirstPositionIsLeast(hits: seq<bool>, f: nat)
    requires f < |hits| && hits[f] && forall x :: 0 <= x < f ==> !hits[x]
    ensures FirstPosition(hits, 0) == Some(f)
  {
  }

  lemma LastPositionIsGreatest(hits: seq<bool>, l: nat)
    requires l < |hits| && hits[l] && forall x :: l < x < |hits| ==> !hits[x]
    ensures LastPosition(hits, |hits|) == Some(l)
  {
  }

  function Total(lines: seq<string>): (r: nat)
    ensures r <= 99 * |lines|
    ensures r == 0 <==> forall i :: 0 <= i < |lines| ==> CalibrationValue(lines[i]).None?
  {
    if lines == [] then 0
    else
      CalibrationValueBounds(lines[0]);
      assert forall i :: 1 <= i < |lines| ==> lines[i] == lines[1..][i - 1];
      (match CalibrationValue(lines[0]) case Some(v) => v case None => 0) + Total(lines[1..])
  }

  /** `solve`: the calibration values of the input's lines added up; since every value is
      at least 11, the answer is 0 exactly when no line holds a digit or a digit word. */
  function Solve(input: string): (r: nat)
    ensures r <= 99 * |Lines(input)|
    ensures r == 0 <==> forall i :: 0 <= i < |Lines(input)| ==> CalibrationValue(Lines(input)[i]).None?
  {
    Total(Lines(input))
  }

  /** The total of two runs of lines is the sum of their totals. */
  lemma {:induction false} TotalAppend(a: seq<string>, b: seq<string>)
    ensures Total(a + b) == Total(a) + Total(b)
  {
    if a != [] {
      var ab := a + b;
      assert ab[0] == a[0] && ab[1..] == a[1..] + b;
      TotalAppend(a[1..], b);
    } else {
      assert a + b == b;
    }
  }

  /** Every entry of the table stands for a digit from 1 to 9. */
  lemma LookupIsDigit(s: string)
    ensures LookupDigit(s).Some? ==> 1 <= LookupDigit(s).value <= 9
  {
    var e := FirstEntry(s, 0);
    if e.Some? {
      var k := e.value;
      assert 1 <= LUT[k].1 <= 9 by { EntryFacts(k); }
    }
  }

  /** What is known of entry `k`: words start with a lower-case letter; the digit entries
      are the single characters '1' .. '9' standing for their own value. */
  lemma EntryFacts(k: nat)
    requires k < |LUT|
    ensures 1 <= LUT[k].1 <= 9
    ensures k < 9 ==> |LUT[k].0| >= 3 && 'a' <= LUT[k].0[0] <= 'z'
    ensures 9 <= k ==> LUT[k].0 == [(k - 8 + '0' as int) as char] && LUT[k].1 == k - 8
  {
    if k == 0 {} else if k == 1 {} else if k == 2 {} else if k == 3 {} else if k == 4 {}
    else if k == 5 {} else if k == 6 {} else if k == 7 {} else if k == 8 {}
    else if k == 9 {} else if k == 10 {} else if k == 11 {} else if k == 12 {}
    else if k == 13 {} else if k == 14 {} else if k == 15 {} else if k == 16 {}
    else { assert k == 17; }
  }

  /** Written digits look up as themselves: text starting with a digit character '1' ..
      '9' looks up as that digit, whatever follows. */
  lemma DigitCharLookup(c: char, rest: string)
    requires '1' <= c <= '9'
    ensures LookupDigit([c] + rest) == Some(DigitValue(c))
  {
    var s := [c] + rest;
    var k := 8 + DigitValue(c);
    EntryFacts(k);
    assert Matches(s, k);
    forall j | 0 <= j < k ensures !Matches(s, j) {
      EntryFacts(j);
      assert s[0] == c;
      if j >= 9 { assert LUT[j].0[0] != c; }
    }
    FirstEntryIsLeastMatch(s, 0, k);
  }

  /** The search returns any matching entry with no match before it. */
  lemma {:induction false} FirstEntryIsLeastMatch(s: string, from: nat, k: nat)
    requires from <= k < |LUT| && Matches(s, k)
    requires forall j :: from <= j < k ==> !Matches(s, j)
    ensures FirstEntry(s, from) == Some(k)
    decreases k - from
  {
    if from < k { FirstEntryIsLeastMatch(s, from + 1, k); }
  }

  /** The character '0' begins no entry: unlike part 1, a zero is not a digit here. */
  lemma ZeroIsNoDigit(rest: string)
    ensures LookupDigit(['0'] + rest).None?
  {
    var s := ['0'] + rest;
    forall k | 0 <= k < |LUT| ensures !Matches(s, k) {
      EntryFacts(k);
      assert s[0] == '0' != LUT[k].0[0];
    }
  }
}
