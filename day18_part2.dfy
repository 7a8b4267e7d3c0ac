/** Day 18, part 2: the same lagoon, but each plan line's true instruction is hidden in its
    colour: the first five hexadecimal digits are the distance and the sixth the direction,
    0 for right, 1 for down, 2 for left and 3 for up. */
module Day18Part2 {
  import opened Text
  import opened Day18Part1

  /** The value of a hexadecimal digit of either case. */
  function HexDigit(c: char): (r: Option<nat>)
    ensures r.Some? ==> r.value < 16
    ensures r.Some? <==> '0' <= c <= '9' || 'a' <= c <= 'f' || 'A' <= c <= 'F'
  {
    if '0' <= c <= '9' then Some(c as int - '0' as int)
    else if 'a' <= c <= 'f' then Some(c as int - 'a' as int + 10)
    else if 'A' <= c <= 'F' then Some(c as int - 'A' as int + 10)
    else None
  }

  predicate AllHex(s: string)
  {
    forall k :: 0 <= k < |s| ==> HexDigit(s[k]).Some?
  }

  function Pow16(n: nat): (p: nat)
    ensures p >= 1
  {
    if n == 0 then 1 else 16 * Pow16(n - 1)
  }

  /** The number the hexadecimal digits of `s` write, most significant first. */
  function HexValue(s: string): nat
    requires AllHex(s)
  {
    if s == [] then 0 else HexValue(s[..|s| - 1]) * 16 + HexDigit(s[|s| - 1]).value
  }

  /** `n` hexadecimal digits write a number below `16^n`. */
  lemma {:induction false} HexValueBound(s: string)
    requires AllHex(s)
    ensures HexValue(s) < Pow16(|s|)
    decreases |s|
  {
    if s != [] {
      var init := s[..|s| - 1];
      assert AllHex(init) by {
        assert forall k :: 0 <= k < |init| ==> init[k] == s[k];
      }
      HexValueBound(init);
      assert HexValue(s) <= (Pow16(|init|) - 1) * 16 + 15;
    }
  }

  /** `u64::from_str_radix(s, 16)`: an optional '+' then at least one hexadecimal digit, of
      a value that fits in a `u64`. */
  function ParseHex(s: string): (r: Option<nat>)
    ensures r.Some? ==> r.value < 0x1_0000_0000_0000_0000
    ensures r.Some? ==> (|s| > 0 && AllHex(s)) || (|s| > 1 && s[0] == '+' && AllHex(s[1..]))
    ensures r.Some? && AllHex(s) ==> r.value == HexValue(s)
    ensures r.Some? && !AllHex(s) ==> |s| > 1 && s[0] == '+' && AllHex(s[1..]) && r.value == HexValue(s[1..])
    ensures |s| > 0 && AllHex(s) && HexValue(s) < 0x1_0000_0000_0000_0000 ==> r.Some?
    ensures |s| > 1 && s[0] == '+' && AllHex(s[1..]) && HexValue(s[1..]) < 0x1_0000_0000_0000_0000 ==> r.Some?
  {
    var digits := if |s| > 1 && s[0] == '+' then s[1..] else s;
    if digits == [] || !AllHex(digits) then None
    else
      var v := HexValue(digits);
      if v < 0x1_0000_0000_0000_0000 then Some(v) else None
  }

  lemma Pow16Five()
    ensures Pow16(5) == 0x10_0000
  {
    assert Pow16(1) == 16 && Pow16(2) == 256 && Pow16(3) == 4096 && Pow16(4) == 0x1_0000;
  }

  lemma {:induction false} Pow16Monotone(m: nat, n: nat)
    requires m <= n
    ensures Pow16(m) <= Pow16(n)
    decreases n
  {
    if m < n {
      Pow16Monotone(m, n - 1);
    }
  }

  /** The direction a colour's sixth digit encodes; any other digit panics. */
  function Letter(code: char): (r: Option<char>)
    ensures r.Some? <==> code in "0123"
    ensures r.Some? ==> r.value in "UDLR"
  {
    match code
    case '3' => Some('U')
    case '1' => Some('D')
    case '2' => Some('L')
    case '0' => Some('R')
    case _ => None
  }

  /** The digit that encodes a direction. */
  function Code(direction: char): char
  {
    match direction
    case 'U' => '3'
    case 'D' => '1'
    case 'L' => '2'
    case _ => '0'
  }

  /** The digit codes and the directions correspond one to one. */
  lemma LetterCode(direction: char, code: char)
    ensures direction in "UDLR" ==> Letter(Code(direction)) == Some(direction)
    ensures Letter(code).Some? ==> Code(Letter(code).value) == code
  {
  }

  /** `Trench::create` of part 2 reads a line: the text after the first " (#" must hold five
      hexadecimal digits and then a direction code; anything else panics. */
  function Decode(line: string): (r: Option<(char, nat)>)
    ensures r.Some? ==> r.value.0 in "UDLR" && r.value.1 < 0x10_0000
  {
    match SplitOnce(line, " (#")
    case None => None
    case Some((_, hex)) =>
      if |hex| < 5 then None
      else
        match ParseHex(hex[..5])
        case None => None
        case Some(distance) =>
          if |hex| < 6 then None
          else
            match Letter(hex[5])
            case None => None
            case Some(direction) =>
              assert distance < 0x10_0000 by {
                if AllHex(hex[..5]) {
                  HexValueBound(hex[..5]);
                  Pow16Five();
                } else {
                  HexValueBound(hex[1..5]);
                  assert hex[..5][1..] == hex[1..5];
                  Pow16Monotone(4, 5);
                  Pow16Five();
                }
              }
              Some((direction, distance))
  }

  /** A lower-case hexadecimal digit. */
  function HexChar(n: nat): (c: char)
    requires n < 16
    ensures HexDigit(c) == Some(n)
  {
    if n < 10 then ('0' as int + n) as char else ('a' as int + n - 10) as char
  }

  /** The `n` lowest hexadecimal digits of `d`, most significant first. */
  function HexDigits(d: nat, n: nat): (s: string)
    ensures |s| == n && AllHex(s)
    ensures forall k :: 0 <= k < n ==> '0' <= s[k] <= '9' || 'a' <= s[k] <= 'f'
  {
    if n == 0 then [] else HexDigits(d / 16, n - 1) + [HexChar(d % 16)]
  }

  /** Writing a number in enough digits and reading them back gives the number. */
  lemma {:induction false} HexValueOfDigits(d: nat, n: nat)
    requires d < Pow16(n)
    ensures HexValue(HexDigits(d, n)) == d
    decreases n
  {
    if n > 0 {
      var s := HexDigits(d, n);
      assert s[..|s| - 1] == HexDigits(d / 16, n - 1);
      HexValueOfDigits(d / 16, n - 1);
    }
  }

  /** The colour that hides the instruction `direction`, `distance` in the puzzle's format. */
  function Colour(direction: char, distance: nat): string
  {
    "(#" + HexDigits(distance, 5) + [Code(direction)] + ")"
  }

  /** Splitting at the first " (#" finds the one after a head that holds no '('. */
  lemma SplitAtColour(head: string, hex: string)
    requires '(' !in head
    ensures SplitOnce(head + " (#" + hex, " (#") == Some((head, hex))
  {
    var sep := " (#";
    var s := head + sep + hex;
    forall j | 0 <= j < |head| ensures !OccursAt(s, sep, j) {
      if j + 1 < |head| {
        assert s[j + 1] == head[j + 1];
      } else {
        assert s[j + 1] == ' ';
      }
      assert s[j..j + |sep|][1] == s[j + 1] != sep[1];
    }
    assert s[|head|..|head| + |sep|] == sep;
    FindFromIsFirstOccurrence(s, sep, 0, |head|);
    assert s[|head| + |sep|..] == hex;
  }

  /** A line whose first " (#" follows `head` reads as the five digits and the code after it. */
  lemma DecodeAfterHead(head: string, digits: string, code: char, tail: string)
    requires '(' !in head && |digits| == 5
    ensures Decode(head + " (#" + (digits + [code] + tail)) ==
      if ParseHex(digits).Some? && Letter(code).Some? then Some((Letter(code).value, ParseHex(digits).value))
      else None
  {
    var hex := digits + [code] + tail;
    SplitAtColour(head, hex);
    assert hex[..5] == digits && hex[5] == code;
  }

  /** A plan line whose colour hides `direction` and `distance` reads as exactly those,
      whatever its own direction letter and distance say. */
  lemma DecodeOfFormat(letter: char, steps: nat, direction: char, distance: nat)
    requires letter != '(' && direction in "UDLR" && distance < 0x10_0000
    ensures Decode(PlanLine(letter, steps, Colour(direction, distance))) == Some((direction, distance))
  {
    var head := [letter, ' '] + NatToString(steps);
    var digits := HexDigits(distance, 5);
    assert '(' !in head by {
      assert forall k :: 2 <= k < |head| ==> head[k] == NatToString(steps)[k - 2];
    }
    assert PlanLine(letter, steps, Colour(direction, distance)) == head + " (#" + (digits + [Code(direction)] + ")");
    DecodeAfterHead(head, digits, Code(direction), ")");
    Pow16Five();
    HexValueOfDigits(distance, 5);
    LetterCode(direction, Code(direction));
  }

  /** Two decoders that agree on every line of a plan dig it alike. */
  lemma {:induction false} DigAgree(first: Decoder, second: Decoder, p: Position, lines: seq<string>)
    requires forall i :: 0 <= i < |lines| ==> first(lines[i]) == second(lines[i])
    ensures DigFrom(first, p, lines) == DigFrom(second, p, lines)
    decreases |lines|
  {
    if lines != [] {
      assert first(lines[0]) == second(lines[0]);
      match Create(first, p, lines[0])
      case None =>
      case Some((q, _)) =>
        assert forall i :: 0 <= i < |lines[1..]| ==> lines[1..][i] == lines[i + 1];
        DigAgree(first, second, q, lines[1..]);
    }
  }

  /** The plan line that says the same in its letters and in its colour. */
  function HonestLine(direction: char, distance: nat): string
  {
    PlanLine(direction, distance, Colour(direction, distance))
  }

  /** A plan whose colours repeat the instructions its letters give digs the same lagoon in
      both parts. */
  lemma HonestPlan(p: Position, steps: seq<(char, nat)>)
    requires forall i :: 0 <= i < |steps| ==> steps[i].0 in "UDLR" && steps[i].1 < 0x10_0000
    ensures DigFrom(Decode, p, seq(|steps|, i requires 0 <= i < |steps| => HonestLine(steps[i].0, steps[i].1)))
      == DigFrom(ParseLine, p, seq(|steps|, i requires 0 <= i < |steps| => HonestLine(steps[i].0, steps[i].1)))
  {
    var lines := seq(|steps|, i requires 0 <= i < |steps| => HonestLine(steps[i].0, steps[i].1));
    forall i | 0 <= i < |lines|
      ensures Decode(lines[i]) == ParseLine(lines[i])
    {
      DecodeOfFormat(steps[i].0, steps[i].1, steps[i].0, steps[i].1);
      ParseLineOfFormat(steps[i].0, steps[i].1, Colour(steps[i].0, steps[i].1));
    }
    DigAgree(Decode, ParseLine, p, lines);
  }

  /** A rectangle hidden in the colours of four lines whose own letters and distances are
      all `letter` and `steps`. */
  function HexRectangle(w: nat, h: nat, letter: char, steps: nat): seq<string>
  {
    [PlanLine(letter, steps, Colour('R', w)), PlanLine(letter, steps, Colour('D', h)),
     PlanLine(letter, steps, Colour('L', w)), PlanLine(letter, steps, Colour('U', h))]
  }

  /** The hidden `w` by `h` rectangle holds `(w + 1) * (h + 1)` cubic metres, whatever the
      lines' own letters say. */
  lemma HexRectangleLagoon(w: nat, h: nat, letter: char, steps: nat)
    requires w < 0x10_0000 && h < 0x10_0000 && letter != '('
    ensures DigFrom(Decode, Origin, HexRectangle(w, h, letter, steps)).Some?
    ensures Lagoon(DigFrom(Decode, Origin, HexRectangle(w, h, letter, steps)).value) == (w + 1) * (h + 1)
  {
    DecodeOfFormat(letter, steps, 'R', w);
    DecodeOfFormat(letter, steps, 'D', h);
    DecodeOfFormat(letter, steps, 'L', w);
    DecodeOfFormat(letter, steps, 'U', h);
    RectangleDug(Decode, HexRectangle(w, h, letter, steps), w, h);
    var k := Corners(w, h);
    RectangleArea(w, h, [Trench(k[0], w), Trench(k[1], h), Trench(k[2], w), Trench(k[3], h)]);
  }

  /** `solve`: the lagoon dug along the instructions hidden in the colours, or none when a
      line panics. */
  method Solve(input: string) returns (r: Option<nat>)
    ensures r.None? <==> DigFrom(Decode, Origin, Lines(input)).None?
    ensures r.Some? ==> r.value == Lagoon(DigFrom(Decode, Origin, Lines(input)).value)
  {
    var trenches := Dig(Decode, Lines(input));
    if trenches.None? {
      return None;
    }
    return Some(Lagoon(trenches.value));
  }
}
