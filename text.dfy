/** String and number helpers shared by the puzzle parsers: the std `str` operations
    (`split`, `split_once`, `lines`, `split_ascii_whitespace`, `parse`) that the solutions lean on.
    Inputs are ASCII text, so a `char` stands for one byte of the input. */
module Text {

  datatype Option<T> = None | Some(value: T)

  predicate IsDigit(c: char) { '0' <= c <= '9' }

  /** ASCII whitespace as `char::is_ascii_whitespace` defines it. */
  predicate IsSpace(c: char) { c == ' ' || c == '\t' || c == '\n' || c as int == 12 || c == '\r' }

  /** Whitespace as `char::is_whitespace` defines it (the Unicode White_Space property), which
      `str::trim` removes: unlike `IsSpace`, it also holds of the vertical tab. */
  predicate IsWhitespace(c: char)
  {
    9 <= c as int <= 13 || c == ' ' || c as int == 0x85 || c as int == 0xA0 || c as int == 0x1680
    || 0x2000 <= c as int <= 0x200A || c as int == 0x2028 || c as int == 0x2029 || c as int == 0x202F
    || c as int == 0x205F || c as int == 0x3000
  }

  function DigitValue(c: char): (d: nat)
    requires IsDigit(c)
    ensures d < 10
    ensures d as char == (c as int - '0' as int) as char
  {
    c as int - '0' as int
  }

  /** `pat` occurs in `s` starting at index `i`. */
  predicate OccursAt(s: string, pat: string, i: int)
  {
    0 <= i && i + |pat| <= |s| && s[i..i + |pat|] == pat
  }

  /** The first index at or after `from` where `pat` occurs. */
  function FindFrom(s: string, pat: string, from: nat): (r: Option<nat>)
    requires from <= |s|
    ensures r.Some? ==> from <= r.value && OccursAt(s, pat, r.value)
    ensures r.Some? ==> forall j :: from <= j < r.value ==> !OccursAt(s, pat, j)
    ensures r.None? ==> forall j :: from <= j ==> !OccursAt(s, pat, j)
    decreases |s| - from
  {
    if OccursAt(s, pat, from) then Some(from)
    else if from + |pat| >= |s| then
      assert forall j :: from < j ==> !OccursAt(s, pat, j);
      None
    else FindFrom(s, pat, from + 1)
  }

  /** `str::split_once`: the text before and after the first occurrence of `sep`. */
  function SplitOnce(s: string, sep: string): (r: Option<(string, string)>)
    ensures r.Some? ==> r.value.0 + sep + r.value.1 == s
    ensures r.Some? ==> OccursAt(s, sep, |r.value.0|)
    ensures r.Some? ==> forall j :: 0 <= j < |r.value.0| ==> !OccursAt(s, sep, j)
    ensures r.None? <==> forall j :: 0 <= j ==> !OccursAt(s, sep, j)
  {
    match FindFrom(s, sep, 0)
    case None => None
    case Some(k) =>
      assert s[..k] + sep + s[k + |sep|..] == s by {
        assert s[k..k + |sep|] == sep;
        assert s == s[..k] + s[k..k + |sep|] + s[k + |sep|..];
      }
      Some((s[..k], s[k + |sep|..]))
  }

  /** Joins `parts` with `sep` between neighbours: the inverse of `Split`. */
  function Join(parts: seq<string>, sep: string): string
    requires |parts| > 0
  {
    if |parts| == 1 then parts[0] else parts[0] + sep + Join(parts[1..], sep)
  }

  /** Joining one more part appends the separator and that part. */
  lemma {:induction false} JoinSnoc(parts: seq<string>, sep: string, x: string)
    requires |parts| > 0
    ensures Join(parts + [x], sep) == Join(parts, sep) + sep + x
  {
    var ys := parts + [x];
    assert ys[0] == parts[0] && ys[1..] == parts[1..] + [x];
    if |parts| > 1 {
      JoinSnoc(parts[1..], sep, x);
      var a, j := parts[0] + sep, Join(parts[1..], sep);
      calc {
        Join(ys, sep);
        a + Join(parts[1..] + [x], sep);
        a + (j + sep + x);
        { assert a + (j + sep + x) == a + j + sep + x; }
        Join(parts, sep) + sep + x;
      }
    } else {
      assert ys[1..] == [x];
    }
  }

  /** A character in neither the parts nor the separator is not in their join. */
  lemma {:induction false} NotInJoin(parts: seq<string>, sep: string, c: char)
    requires |parts| > 0 && c !in sep && forall i :: 0 <= i < |parts| ==> c !in parts[i]
    ensures c !in Join(parts, sep)
  {
    if |parts| > 1 {
      NotInJoin(parts[1..], sep, c);
    }
  }

  /** `str::split` with a non-empty separator: every piece between separators, empty
      pieces included, scanning left to right without overlaps. */
  function Split(s: string, sep: string): (r: seq<string>)
    requires |sep| > 0
    ensures |r| >= 1
    ensures Join(r, sep) == s
    ensures forall i, j :: 0 <= i < |r| && 0 <= j ==> !OccursAt(r[i], sep, j)
    decreases |s|
  {
    match SplitOnce(s, sep)
    case None => [s]
    case Some((a, b)) =>
      NoOccurrenceInPrefix(s, a, sep);
      [a] + Split(b, sep)
  }

  /** A prefix that ends before the first occurrence of `sep` contains no occurrence. */
  lemma NoOccurrenceInPrefix(s: string, a: string, sep: string)
    requires |sep| > 0 && |a| <= |s| && a == s[..|a|]
    requires forall j :: 0 <= j < |a| ==> !OccursAt(s, sep, j)
    ensures forall j :: 0 <= j ==> !OccursAt(a, sep, j)
  {
    forall j | 0 <= j && OccursAt(a, sep, j)
      ensures false
    {
      assert a[j..j + |sep|] == s[j..j + |sep|];
      assert OccursAt(s, sep, j);
    }
  }

  /** One `\r` at the end of a line is dropped, as `str::lines` does. */
  function StripCr(line: string): string
  {
    if |line| > 0 && line[|line| - 1] == '\r' then line[..|line| - 1] else line
  }

  /** `str::lines`: the pieces between newlines, without a final empty piece and without
      the carriage return of a CRLF ending. */
  function Lines(s: string): (r: seq<string>)
    ensures s == "" ==> r == []
    ensures forall i :: 0 <= i < |r| ==> '\n' !in r[i]
    ensures var parts := Split(s, "\n");
      |r| == if parts[|parts| - 1] == "" then |parts| - 1 else |parts|
    ensures forall i :: 0 <= i < |r| ==> r[i] == StripCr(Split(s, "\n")[i])
  {
    var parts := Split(s, "\n");
    NoNewlineInPieces(parts);
    LinesOfPieces(parts)
  }

  /** The pieces but a final empty one, each without its carriage return. */
  function LinesOfPieces(parts: seq<string>): (r: seq<string>)
    requires |parts| > 0
    ensures |r| == if parts[|parts| - 1] == "" then |parts| - 1 else |parts|
    ensures forall i :: 0 <= i < |r| ==> r[i] == StripCr(parts[i])
  {
    var n := if parts[|parts| - 1] == "" then |parts| - 1 else |parts|;
    seq(n, i requires 0 <= i < n => StripCr(parts[i]))
  }

  /** Pieces split at newlines hold no newline, even after `StripCr`. */
  lemma NoNewlineInPieces(parts: seq<string>)
    requires forall i, j :: 0 <= i < |parts| && 0 <= j ==> !OccursAt(parts[i], "\n", j)
    ensures forall i :: 0 <= i < |parts| ==> '\n' !in StripCr(parts[i])
  {
    forall i, k | 0 <= i < |parts| && 0 <= k < |StripCr(parts[i])|
      ensures StripCr(parts[i])[k] != '\n'
    {
      assert StripCr(parts[i])[k] == parts[i][k];
      assert !OccursAt(parts[i], "\n", k);
    }
  }

  /** Length of the run of non-whitespace characters at the start of `s`. */
  function TokenLength(s: string): (n: nat)
    ensures n <= |s|
    ensures forall k :: 0 <= k < n ==> !IsSpace(s[k])
    ensures n < |s| ==> IsSpace(s[n])
  {
    if s == [] || IsSpace(s[0]) then 0 else 1 + TokenLength(s[1..])
  }

  /** `s` with every whitespace character removed. */
  function RemoveSpaces(s: string): string
  {
    if s == [] then [] else (if IsSpace(s[0]) then [] else [s[0]]) + RemoveSpaces(s[1..])
  }

  function Concat(parts: seq<string>): string
  {
    if parts == [] then [] else parts[0] + Concat(parts[1..])
  }

  lemma {:induction false} RemoveSpacesOfToken(s: string, n: nat)
    requires n <= |s|
    requires forall k :: 0 <= k < n ==> !IsSpace(s[k])
    ensures RemoveSpaces(s) == s[..n] + RemoveSpaces(s[n..])
  {
    if n > 0 {
      RemoveSpacesOfToken(s[1..], n - 1);
      assert s[1..][n - 1..] == s[n..];
      assert s[..n] == [s[0]] + s[1..][..n - 1];
    }
  }

  /** A run of non-whitespace characters followed by whitespace is one token. */
  lemma TokenLengthOfToken(a: string, b: string)
    requires forall k :: 0 <= k < |a| ==> !IsSpace(a[k])
    requires b == [] || IsSpace(b[0])
    ensures TokenLength(a + b) == |a|
  {
    var s := a + b;
    assert forall k :: 0 <= k < |a| ==> s[k] == a[k];
    if |b| > 0 {
      assert s[|a|] == b[0];
    }
  }

  /** Splitting at whitespace inverts joining non-empty whitespace-free tokens with a
      space: the tokens are exactly the maximal runs of non-whitespace characters. */
  lemma {:induction false} SplitWhitespaceOfJoin(parts: seq<string>)
    requires |parts| > 0
    requires forall i :: 0 <= i < |parts| ==> |parts[i]| > 0
    requires forall i, k :: 0 <= i < |parts| && 0 <= k < |parts[i]| ==> !IsSpace(parts[i][k])
    ensures SplitWhitespace(Join(parts, " ")) == parts
  {
    var p := parts[0];
    if |parts| == 1 {
      TokenLengthOfToken(p, []);
      assert p + [] == p;
      assert p[..|p|] == p;
    } else {
      var rest := Join(parts[1..], " ");
      var s := p + " " + rest;
      TokenLengthOfToken(p, " " + rest);
      assert s == p + (" " + rest);
      assert s[..|p|] == p;
      assert s[|p|..] == " " + rest;
      assert (" " + rest)[1..] == rest;
      SplitWhitespaceOfJoin(parts[1..]);
      assert [p] + parts[1..] == parts;
    }
  }

  /** `str::split_ascii_whitespace`: the maximal runs of non-whitespace characters. */
  function SplitWhitespace(s: string): (r: seq<string>)
    ensures forall i :: 0 <= i < |r| ==> |r[i]| > 0
    ensures forall i, k :: 0 <= i < |r| && 0 <= k < |r[i]| ==> !IsSpace(r[i][k])
    ensures Concat(r) == RemoveSpaces(s)
    decreases |s|
  {
    if s == [] then []
    else if IsSpace(s[0]) then SplitWhitespace(s[1..])
    else
      var n := TokenLength(s);
      RemoveSpacesOfToken(s, n);
      var rest := SplitWhitespace(s[n..]);
      assert ([s[..n]] + rest)[1..] == rest;
      [s[..n]] + rest
  }

  predicate AllDigits(s: string) { forall i :: 0 <= i < |s| ==> IsDigit(s[i]) }

  /** The decimal value of a string of digits, most significant first. */
  function DigitsValue(s: string): nat
    requires AllDigits(s)
  {
    if s == [] then 0 else DigitsValue(s[..|s| - 1]) * 10 + DigitValue(s[|s| - 1])
  }

  /** `str::parse::<usize>()`: an optional `+` followed by at least one decimal digit. */
  function ParseNat(s: string): (r: Option<nat>)
    ensures r.Some? <==> (|s| > 0 && AllDigits(s)) || (|s| > 1 && s[0] == '+' && AllDigits(s[1..]))
    ensures r.Some? && AllDigits(s) ==> r.value == DigitsValue(s)
    ensures r.Some? && !AllDigits(s) ==>
      |s| > 1 && s[0] == '+' && AllDigits(s[1..]) && r.value == DigitsValue(s[1..])
  {
    if |s| > 0 && AllDigits(s) then Some(DigitsValue(s))
    else if |s| > 1 && s[0] == '+' && AllDigits(s[1..]) then Some(DigitsValue(s[1..]))
    else None
  }

  /** `str::parse` for a signed integer: an optional `+` or `-`, then decimal digits. */
  function ParseInt(s: string): (r: Option<int>)
    ensures r.Some? <==> ParseNat(s).Some? || (|s| > 1 && s[0] == '-' && AllDigits(s[1..]))
    ensures ParseNat(s).Some? ==> r == Some(ParseNat(s).value)
    ensures |s| > 1 && s[0] == '-' && AllDigits(s[1..]) ==> r == Some(-(DigitsValue(s[1..]) as int))
  {
    if |s| > 1 && s[0] == '-' && AllDigits(s[1..]) then var v: int := DigitsValue(s[1..]); Some(-v)
    else match ParseNat(s)
      case Some(n) => Some(n)
      case None => None
  }

  /** The first index of `c` in `s`, as `iter().position` finds it. */
  function IndexOf(s: string, c: char): (r: Option<nat>)
    ensures r.Some? ==> r.value < |s| && s[r.value] == c && c !in s[..r.value]
    ensures r.None? <==> c !in s
  {
    if s == [] then None
    else if s[0] == c then Some(0)
    else match IndexOf(s[1..], c)
      case None => None
      case Some(k) => assert s[..k + 1] == [s[0]] + s[1..][..k]; Some(k + 1)
  }

  /** `str::trim_end`: `s` without its trailing whitespace. */
  function TrimEnd(s: string): (r: string)
    ensures |r| <= |s| && r == s[..|r|]
    ensures r == "" || !IsWhitespace(r[|r| - 1])
    ensures forall k :: |r| <= k < |s| ==> IsWhitespace(s[k])
  {
    if s != "" && IsWhitespace(s[|s| - 1]) then TrimEnd(s[..|s| - 1]) else s
  }

  /** `str::trim_start`: `s` without its leading whitespace. */
  function TrimStart(s: string): (r: string)
    ensures |r| <= |s| && r == s[|s| - |r|..]
    ensures r == "" || !IsWhitespace(r[0])
    ensures forall k :: 0 <= k < |s| - |r| ==> IsWhitespace(s[k])
  {
    if s != "" && IsWhitespace(s[0]) then TrimStart(s[1..]) else s
  }

  /** `str::trim`: `s` without its leading and trailing whitespace. */
  function Trim(s: string): (r: string)
    ensures |r| <= |s|
    ensures r == "" || (!IsWhitespace(r[0]) && !IsWhitespace(r[|r| - 1]))
  {
    TrimEnd(TrimStart(s))
  }

  /** `Trim(s)` is a slice of `s` with only whitespace before and after it. */
  lemma {:induction false} TrimIsSlice(s: string)
    ensures exists i :: TrimmedSlice(s, Trim(s), i)
  {
    TrimmedAt(s);
    assert TrimmedSlice(s, Trim(s), |s| - |TrimStart(s)|);
  }

  /** `r` is `s[i..i + |r|]`, and every other character of `s` is whitespace. */
  predicate TrimmedSlice(s: string, r: string, i: int)
  {
    0 <= i <= |s| - |r| && r == s[i..i + |r|] && WhitespaceRange(s, 0, i) && WhitespaceRange(s, i + |r|, |s|)
  }

  /** `Trim(s)` starts in `s` where `TrimStart(s)` does. */
  lemma {:induction false} TrimmedAt(s: string)
    ensures TrimmedSlice(s, TrimEnd(TrimStart(s)), |s| - |TrimStart(s)|)
  {
    var t := TrimStart(s);
    var r := TrimEnd(t);
    assert WhitespaceRange(s, 0, |s| - |t|);
    assert WhitespaceRange(t, |r|, |t|);
    PrefixOfSuffix(s, |s| - |t|, t, r);
  }

  /** A prefix `r` of the suffix `t == s[i..]`, followed in `t` by whitespace only, where `s`
      has only whitespace before `i`, is a trimmed slice of `s`. */
  lemma {:induction false} PrefixOfSuffix(s: string, i: nat, t: string, r: string)
    requires i <= |s| && t == s[i..] && |r| <= |t| && r == t[..|r|] && WhitespaceRange(t, |r|, |t|)
    requires WhitespaceRange(s, 0, i)
    ensures TrimmedSlice(s, r, i)
  {
    forall k | i + |r| <= k < |s|
      ensures IsWhitespace(s[k])
    {
      assert s[k] == t[k - i];
    }
  }

  /** Every character of `s[lo..hi]` is whitespace. */
  predicate WhitespaceRange(s: string, lo: int, hi: int)
    requires 0 <= lo <= hi <= |s|
  {
    forall k :: lo <= k < hi ==> IsWhitespace(s[k])
  }

  /** The product of two numbers that are not negative is not negative. */
  lemma MulNonneg(a: int, b: int)
    requires a >= 0 && b >= 0
    ensures a * b >= 0
  {
  }

  /** Multiplication distributes over addition, on either side. */
  lemma MulDistributes(c: int, f: int, g: int)
    ensures c * (f + g) == c * f + c * g && (f + g) * c == f * c + g * c
  {
  }

  /** The only multiple of `c` strictly between `-c` and `c` is zero. */
  lemma MultipleBelow(k: int, c: int)
    requires c > 0 && -c < k * c < c
    ensures k == 0
  {
  }

  /** A natural number divided by a positive one is not negative. */
  lemma DivNonneg(n: nat, d: nat)
    requires d > 0
    ensures n / d >= 0
  {
  }

  /** Multiplying by a positive `d` and dividing by it again gives the number back. */
  lemma MulDivCancel(d: int, m: int)
    requires d > 0 && m >= 0
    ensures d * m / d == m
  {
    var q, r := d * m / d, d * m % d;
    assert (q - m) * d == -r;
    MultipleBelow(q - m, d);
  }

  /** The decimal digit character of `d`. */
  function DigitChar(d: nat): (c: char)
    requires d < 10
    ensures IsDigit(c) && DigitValue(c) == d
  {
    ('0' as int + d) as char
  }

  /** The decimal representation of `n`, without leading zeros: what `to_string` gives. */
  function NatToString(n: nat): (s: string)
    ensures |s| > 0 && AllDigits(s)
  {
    if n < 10 then [DigitChar(n)] else NatToString(n / 10) + [DigitChar(n % 10)]
  }

  lemma {:induction false} DigitsValueOfNatToString(n: nat)
    ensures DigitsValue(NatToString(n)) == n
  {
    var s := NatToString(n);
    if n >= 10 {
      DigitsValueOfNatToString(n / 10);
      assert s[..|s| - 1] == NatToString(n / 10);
    }
  }

  /** Parsing inverts printing. */
  lemma ParseNatOfNatToString(n: nat)
    ensures ParseNat(NatToString(n)) == Some(n)
  {
    DigitsValueOfNatToString(n);
  }

  /** An occurrence with none before it is the one `FindFrom` reports. */
  lemma FindFromIsFirstOccurrence(s: string, pat: string, from: nat, k: nat)
    requires from <= k && from <= |s| && OccursAt(s, pat, k)
    requires forall j :: from <= j < k ==> !OccursAt(s, pat, j)
    ensures FindFrom(s, pat, from) == Some(k)
  {
  }

  /** `sep` cannot occur at an index where `s` does not hold its first character. */
  lemma NoOccurrenceWithoutFirstChar(s: string, sep: string, j: nat)
    requires |sep| > 0 && j < |s| && s[j] != sep[0]
    ensures !OccursAt(s, sep, j)
  {
  }

  /** Splitting at the first separator of `a + sep + b`, when `a` lacks the separator's
      first character, gives back `a` and `b`. */
  lemma SplitOnceOfJoined(a: string, sep: string, b: string)
    requires |sep| > 0 && sep[0] !in a
    ensures SplitOnce(a + sep + b, sep) == Some((a, b))
  {
    var s := a + sep + b;
    forall j | 0 <= j < |a| ensures !OccursAt(s, sep, j) {
      assert s[j] == a[j];
      NoOccurrenceWithoutFirstChar(s, sep, j);
    }
    assert s[|a|..|a| + |sep|] == sep;
    FindFromIsFirstOccurrence(s, sep, 0, |a|);
    assert s[|a| + |sep|..] == b;
  }

  /** A string without the separator's first character is not split. */
  lemma SplitOfUnseparated(a: string, sep: string)
    requires |sep| > 0 && sep[0] !in a
    ensures Split(a, sep) == [a]
  {
    forall j | 0 <= j ensures !OccursAt(a, sep, j) {
      if j < |a| { NoOccurrenceWithoutFirstChar(a, sep, j); }
    }
  }

  /** `Split` inverts `Join` when no part holds the separator's first character. */
  lemma {:induction false} SplitOfJoin(parts: seq<string>, sep: string)
    requires |parts| > 0 && |sep| > 0
    requires forall i :: 0 <= i < |parts| ==> sep[0] !in parts[i]
    ensures Split(Join(parts, sep), sep) == parts
  {
    if |parts| == 1 {
      SplitOfUnseparated(parts[0], sep);
    } else {
      SplitOnceOfJoined(parts[0], sep, Join(parts[1..], sep));
      SplitOfJoin(parts[1..], sep);
    }
  }

  /** `lines` inverts joining lines with a newline after each, when no line holds a
      newline or ends with a carriage return. */
  lemma LinesOfTerminated(ls: seq<string>)
    requires |ls| > 0
    requires forall i :: 0 <= i < |ls| ==> '\n' !in ls[i] && StripCr(ls[i]) == ls[i]
    ensures Lines(Join(ls, "\n") + "\n") == ls
  {
    SplitOfTerminated(ls);
  }

  lemma SplitOfTerminated(ls: seq<string>)
    requires |ls| > 0
    requires forall i :: 0 <= i < |ls| ==> '\n' !in ls[i]
    ensures Split(Join(ls, "\n") + "\n", "\n") == ls + [""]
  {
    var u := ls + [""];
    forall i | 0 <= i < |u| ensures "\n"[0] !in u[i] {
      if i < |ls| { assert u[i] == ls[i]; }
    }
    SplitOfJoin(u, "\n");
    var j := Join(ls, "\n");
    JoinSnoc(ls, "\n", "");
    assert j + "\n" + "" == j + "\n";
  }

  /** `lines` inverts joining lines with a newline between neighbours, when the last line
      is not empty and no line holds a newline or ends with a carriage return. */
  lemma LinesOfJoin(ls: seq<string>)
    requires |ls| > 0 && ls[|ls| - 1] != ""
    requires forall i :: 0 <= i < |ls| ==> '\n' !in ls[i] && StripCr(ls[i]) == ls[i]
    ensures Lines(Join(ls, "\n")) == ls
  {
    SplitOfJoin(ls, "\n");
  }

  /** Each text parsed in turn; none as soon as one of them panics. */
  function ParseEach<T>(texts: seq<string>, parse: string -> Option<T>): (r: Option<seq<T>>)
    ensures r.Some? ==> |r.value| == |texts|
    ensures r.Some? <==> forall i :: 0 <= i < |texts| ==> parse(texts[i]).Some?
    ensures r.Some? ==> forall i :: 0 <= i < |texts| ==> r.value[i] == parse(texts[i]).value
  {
    if texts == [] then Some([])
    else
      match parse(texts[0])
      case None => None
      case Some(first) =>
        match ParseEach(texts[1..], parse)
        case None =>
          assert exists i :: 1 <= i < |texts| && parse(texts[i]).None? by {
            var i :| 0 <= i < |texts[1..]| && parse(texts[1..][i]).None?;
            assert texts[1..][i] == texts[i + 1];
          }
          None
        case Some(rest) =>
          assert forall i :: 1 <= i < |texts| ==> texts[i] == texts[1..][i - 1];
          Some([first] + rest)
  }

  function Reverse<T>(s: seq<T>): (r: seq<T>)
    ensures |r| == |s|
    ensures forall i :: 0 <= i < |s| ==> r[i] == s[|s| - 1 - i]
  {
    seq(|s|, i requires 0 <= i < |s| => s[|s| - 1 - i])
  }

  lemma ReverseReverse<T>(s: seq<T>)
    ensures Reverse(Reverse(s)) == s
  {
  }
}
