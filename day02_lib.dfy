/** Day 2: games of cubes drawn from a bag. A line reads
    "Game <id>: <count> <colour>, ...; <count> <colour>, ...". */
module Day02 {
  import opened Text

  /** One draw of `count` cubes of one colour. */
  datatype Cube = Cube(count: nat, colour: string)

  datatype Game = Game(id: nat, rounds: seq<seq<Cube>>)

  /** "<count> <colour>", split at the first space; `None` when the count is no number. */
  function ParseCube(cube: string): (r: Option<Cube>)
  {
    match SplitOnce(cube, " ")
    case None => None
    case Some((number, colour)) =>
      match ParseNat(number)
      case None => None
      case Some(n) => Some(Cube(n, colour))
  }

  /** The cubes of one round: the pieces that parse, in order (`filter_map`). */
  function ParseCubes(pieces: seq<string>): (r: seq<Cube>)
    ensures |r| <= |pieces|
  {
    if pieces == [] then []
    else (match ParseCube(pieces[0]) case Some(c) => [c] case None => []) + ParseCubes(pieces[1..])
  }

  function ParseRounds(pieces: seq<string>): (r: seq<seq<Cube>>)
    ensures |r| == |pieces|
  {
    if pieces == [] then [] else [ParseCubes(Split(pieces[0], ", "))] + ParseRounds(pieces[1..])
  }

  /** `Game::try_parse`: `None` without ": ", without a space before it, or when the
      text after that space is no number. */
  function TryParse(line: string): (r: Option<Game>)
    ensures r.Some? ==> |r.value.rounds| >= 1
    ensures SplitOnce(line, ": ").None? ==> r.None?
  {
    match SplitOnce(line, ": ")
    case None => None
    case Some((game, rounds)) =>
      match SplitOnce(game, " ")
      case None => None
      case Some((_, id)) =>
        match ParseNat(id)
        case None => None
        case Some(n) => Some(Game(n, ParseRounds(Split(rounds, "; "))))
  }

  // Printing a game, the inverse of parsing.

  function FormatCube(c: Cube): string
  {
    NatToString(c.count) + " " + c.colour
  }

  function FormatCubes(cubes: seq<Cube>): (r: seq<string>)
    ensures |r| == |cubes|
  {
    if cubes == [] then [] else [FormatCube(cubes[0])] + FormatCubes(cubes[1..])
  }

  function FormatRounds(rounds: seq<seq<Cube>>): (r: seq<string>)
    requires forall i :: 0 <= i < |rounds| ==> |rounds[i]| > 0
    ensures |r| == |rounds|
  {
    if rounds == [] then [] else [Join(FormatCubes(rounds[0]), ", ")] + FormatRounds(rounds[1..])
  }

  /** A game that can be written as a line: at least one round, no empty round, and no
      colour holding a ',' or a ';'. */
  predicate Printable(g: Game)
  {
    |g.rounds| > 0 &&
    (forall i :: 0 <= i < |g.rounds| ==> |g.rounds[i]| > 0) &&
    (forall i, j :: 0 <= i < |g.rounds| && 0 <= j < |g.rounds[i]| ==>
      ',' !in g.rounds[i][j].colour && ';' !in g.rounds[i][j].colour)
  }

  function Format(g: Game): string
    requires Printable(g)
  {
    "Game " + NatToString(g.id) + ": " + Join(FormatRounds(g.rounds), "; ")
  }

  lemma CubeRoundTrip(c: Cube)
    requires ',' !in c.colour && ';' !in c.colour
    ensures ParseCube(FormatCube(c)) == Some(c)
    ensures ',' !in FormatCube(c) && ';' !in FormatCube(c)
  {
    var digits := NatToString(c.count);
    assert ' ' !in digits by {
      forall k | 0 <= k < |digits| ensures digits[k] != ' ' { assert IsDigit(digits[k]); }
    }
    SplitOnceOfJoined(digits, " ", c.colour);
    ParseNatOfNatToString(c.count);
    forall k | 0 <= k < |digits| ensures digits[k] != ',' && digits[k] != ';' {
      assert IsDigit(digits[k]);
    }
  }

  lemma {:induction false} CubesRoundTrip(cubes: seq<Cube>)
    requires forall j :: 0 <= j < |cubes| ==> ',' !in cubes[j].colour && ';' !in cubes[j].colour
    ensures ParseCubes(FormatCubes(cubes)) == cubes
    ensures forall j :: 0 <= j < |cubes| ==> ',' !in FormatCubes(cubes)[j] && ';' !in FormatCubes(cubes)[j]
  {
    if cubes != [] {
      CubeRoundTrip(cubes[0]);
      CubesRoundTrip(cubes[1..]);
      assert FormatCubes(cubes)[1..] == FormatCubes(cubes[1..]);
    }
  }

  lemma {:induction false} RoundsRoundTrip(g: Game, rounds: seq<seq<Cube>>)
    requires forall i :: 0 <= i < |rounds| ==> |rounds[i]| > 0
    requires forall i, j :: 0 <= i < |rounds| && 0 <= j < |rounds[i]| ==>
      ',' !in rounds[i][j].colour && ';' !in rounds[i][j].colour
    ensures ParseRounds(FormatRounds(rounds)) == rounds
    ensures forall i :: 0 <= i < |rounds| ==> ';' !in FormatRounds(rounds)[i]
  {
    if rounds != [] {
      RoundRoundTrip(rounds[0]);
      RoundsRoundTrip(g, rounds[1..]);
      assert FormatRounds(rounds)[1..] == FormatRounds(rounds[1..]);
    }
  }

  /** One printed round parses back to its cubes and holds no ';'. */
  lemma RoundRoundTrip(round: seq<Cube>)
    requires |round| > 0
    requires forall j :: 0 <= j < |round| ==> ',' !in round[j].colour && ';' !in round[j].colour
    ensures ParseCubes(Split(Join(FormatCubes(round), ", "), ", ")) == round
    ensures ';' !in Join(FormatCubes(round), ", ")
  {
    var pieces := FormatCubes(round);
    CubesRoundTrip(round);
    SplitOfJoin(pieces, ", ");
    NotInJoin(pieces, ", ", ';');
  }

  /** Parsing a printed game gives the game back. */
  lemma ParseFormat(g: Game)
    requires Printable(g)
    ensures TryParse(Format(g)) == Some(g)
  {
    var header := "Game " + NatToString(g.id);
    var body := Join(FormatRounds(g.rounds), "; ");
    HeaderRoundTrip(g.id);
    assert Format(g) == header + ": " + body;
    SplitOnceOfJoined(header, ": ", body);
    BodyRoundTrip(g);
  }

  /** The header "Game <id>" holds no ':' and splits at its space into "Game" and the id. */
  lemma HeaderRoundTrip(id: nat)
    ensures ':' !in "Game " + NatToString(id)
    ensures SplitOnce("Game " + NatToString(id), " ") == Some(("Game", NatToString(id)))
    ensures ParseNat(NatToString(id)) == Some(id)
  {
    var digits := NatToString(id);
    forall k | 0 <= k < |digits| ensures digits[k] != ':' { assert IsDigit(digits[k]); }
    assert "Game " + digits == "Game" + " " + digits;
    SplitOnceOfJoined("Game", " ", digits);
    ParseNatOfNatToString(id);
  }

  /** The printed rounds split at "; " and parse back to the rounds. */
  lemma BodyRoundTrip(g: Game)
    requires Printable(g)
    ensures ParseRounds(Split(Join(FormatRounds(g.rounds), "; "), "; ")) == g.rounds
  {
    RoundsRoundTrip(g, g.rounds);
    SplitOfJoin(FormatRounds(g.rounds), "; ");
  }

  /** The limits of the bag; an unknown colour is never allowed. */
  predicate Allowed(c: Cube)
  {
    match c.colour
    case "red" => c.count <= 12
    case "green" => c.count <= 13
    case "blue" => c.count <= 14
    case _ => false
  }

  function AllAllowed(cubes: seq<Cube>): bool
  {
    cubes == [] || (Allowed(cubes[0]) && AllAllowed(cubes[1..]))
  }

  function AllRoundsAllowed(rounds: seq<seq<Cube>>): bool
  {
    rounds == [] || (AllAllowed(rounds[0]) && AllRoundsAllowed(rounds[1..]))
  }

  /** `is_possible_game`: every round passes `all` over its cubes. */
  function IsPossible(g: Game): bool
  {
    AllRoundsAllowed(g.rounds)
  }

  lemma {:induction false} AllAllowedMeans(cubes: seq<Cube>)
    ensures AllAllowed(cubes) <==> forall j :: 0 <= j < |cubes| ==> Allowed(cubes[j])
  {
    if cubes != [] {
      AllAllowedMeans(cubes[1..]);
      assert forall j :: 1 <= j < |cubes| ==> cubes[j] == cubes[1..][j - 1];
    }
  }

  lemma {:induction false} AllRoundsAllowedMeans(rounds: seq<seq<Cube>>)
    ensures AllRoundsAllowed(rounds) <==>
      forall i, j :: 0 <= i < |rounds| && 0 <= j < |rounds[i]| ==> Allowed(rounds[i][j])
  {
    if rounds != [] {
      AllAllowedMeans(rounds[0]);
      AllRoundsAllowedMeans(rounds[1..]);
      assert forall i :: 1 <= i < |rounds| ==> rounds[i] == rounds[1..][i - 1];
    }
  }

  /** A game is possible exactly when every cube drawn in it is allowed: at most 12
      red, 13 green and 14 blue, and no other colour. */
  lemma PossibleIff(g: Game)
    ensures IsPossible(g) <==>
      forall i, j :: 0 <= i < |g.rounds| && 0 <= j < |g.rounds[i]| ==> Allowed(g.rounds[i][j])
  {
    AllRoundsAllowedMeans(g.rounds);
  }

  /** A single cube of a colour other than red, green or blue makes the game impossible. */
  lemma UnknownColourImpossible(g: Game, i: nat, j: nat)
    requires i < |g.rounds| && j < |g.rounds[i]|
    requires g.rounds[i][j].colour !in {"red", "green", "blue"}
    ensures !IsPossible(g)
  {
    PossibleIff(g);
    assert !Allowed(g.rounds[i][j]);
  }

  /** The largest count drawn of `colour` in `cubes`, 0 when none is drawn. */
  function MaxIn(cubes: seq<Cube>, colour: string): nat
  {
    if cubes == [] then 0
    else
      var m := MaxIn(cubes[..|cubes| - 1], colour);
      var c := cubes[|cubes| - 1];
      if c.colour == colour && c.count > m then c.count else m
  }

  /** The largest count drawn of `colour` over all rounds. */
  function MaxInRounds(rounds: seq<seq<Cube>>, colour: string): nat
  {
    if rounds == [] then 0
    else
      var m := MaxInRounds(rounds[..|rounds| - 1], colour);
      var n := MaxIn(rounds[|rounds| - 1], colour);
      if n > m then n else m
  }

  /** The product of the smallest cube counts that make the game possible. */
  function Power(g: Game): nat
  {
    var red, green, blue := MaxInRounds(g.rounds, "red"), MaxInRounds(g.rounds, "green"), MaxInRounds(g.rounds, "blue");
    MulNonneg(red, green);
    MulNonneg(red * green, blue);
    red * green * blue
  }

  /** `MaxIn` bounds every draw of the colour and is 0 or one of them. */
  lemma {:induction false} MaxInIsMaximum(cubes: seq<Cube>, colour: string)
    ensures forall j :: 0 <= j < |cubes| && cubes[j].colour == colour ==> cubes[j].count <= MaxIn(cubes, colour)
    ensures MaxIn(cubes, colour) == 0 ||
      exists j :: 0 <= j < |cubes| && cubes[j].colour == colour && cubes[j].count == MaxIn(cubes, colour)
  {
    if cubes != [] {
      var init := cubes[..|cubes| - 1];
      MaxInIsMaximum(init, colour);
      assert forall j :: 0 <= j < |init| ==> init[j] == cubes[j];
    }
  }

  /** `MaxInRounds` bounds every draw of the colour in every round and is 0 or one of them. */
  lemma {:induction false} MaxInRoundsIsMaximum(rounds: seq<seq<Cube>>, colour: string)
    ensures forall i, j :: 0 <= i < |rounds| && 0 <= j < |rounds[i]| && rounds[i][j].colour == colour ==>
      rounds[i][j].count <= MaxInRounds(rounds, colour)
    ensures MaxInRounds(rounds, colour) == 0 ||
      exists i, j :: 0 <= i < |rounds| && 0 <= j < |rounds[i]| && rounds[i][j].colour == colour &&
        rounds[i][j].count == MaxInRounds(rounds, colour)
  {
    if rounds != [] {
      var init := rounds[..|rounds| - 1];
      MaxInRoundsIsMaximum(init, colour);
      MaxInIsMaximum(rounds[|rounds| - 1], colour);
      assert forall i :: 0 <= i < |init| ==> init[i] == rounds[i];
    }
  }

  function Max(a: nat, b: nat): nat { if a > b then a else b }

  /** The inner loop of `get_cube_power` over one round: the running maxima of the three
      colours, starting from `red0`, `green0` and `blue0`. */
  method RoundMaxima(round: seq<Cube>, red0: nat, green0: nat, blue0: nat) returns (red: nat, green: nat, blue: nat)
    ensures red == Max(red0, MaxIn(round, "red"))
    ensures green == Max(green0, MaxIn(round, "green"))
    ensures blue == Max(blue0, MaxIn(round, "blue"))
  {
    red, green, blue := red0, green0, blue0;
    var j := 0;
    while j < |round|
      invariant 0 <= j <= |round|
      invariant red == Max(red0, MaxIn(round[..j], "red"))
      invariant green == Max(green0, MaxIn(round[..j], "green"))
      invariant blue == Max(blue0, MaxIn(round[..j], "blue"))
    {
      var c := round[j];
      assert round[..j + 1][..j] == round[..j];
      if c.colour == "red" {
        red := Max(red, c.count);
      } else if c.colour == "green" {
        green := Max(green, c.count);
      } else if c.colour == "blue" {
        blue := Max(blue, c.count);
      }
      j := j + 1;
    }
    assert round[..j] == round;
  }

  /** One more round raises the maximum to that round's maximum when it is larger. */
  lemma MaxInRoundsSnoc(rounds: seq<seq<Cube>>, i: nat, colour: string)
    requires i < |rounds|
    ensures MaxInRounds(rounds[..i + 1], colour) == Max(MaxInRounds(rounds[..i], colour), MaxIn(rounds[i], colour))
  {
    assert rounds[..i + 1][..i] == rounds[..i];
  }

  /** The maxima over all the rounds multiply to the power. */
  lemma PowerOfMaxima(g: Game, red: nat, green: nat, blue: nat)
    requires red == MaxInRounds(g.rounds[..|g.rounds|], "red")
    requires green == MaxInRounds(g.rounds[..|g.rounds|], "green")
    requires blue == MaxInRounds(g.rounds[..|g.rounds|], "blue")
    ensures red * green * blue == Power(g)
  {
    assert g.rounds[..|g.rounds|] == g.rounds;
  }

  /** `get_cube_power`: one pass over every cube keeping the running maximum of each
      colour; counts of other colours are ignored. */
  method CubePower(g: Game) returns (power: nat)
    ensures power == Power(g)
  {
    var red, green, blue := 0, 0, 0;
    var i := 0;
    while i < |g.rounds|
      invariant 0 <= i <= |g.rounds|
      invariant red == MaxInRounds(g.rounds[..i], "red")
      invariant green == MaxInRounds(g.rounds[..i], "green")
      invariant blue == MaxInRounds(g.rounds[..i], "blue")
    {
      MaxInRoundsSnoc(g.rounds, i, "red");
      MaxInRoundsSnoc(g.rounds, i, "green");
      MaxInRoundsSnoc(g.rounds, i, "blue");
      red, green, blue := RoundMaxima(g.rounds[i], red, green, blue);
      i := i + 1;
    }
    PowerOfMaxima(g, red, green, blue);
    MulNonneg(red, green);
    MulNonneg(red * green, blue);
    power := red * green * blue;
  }

  /** What one line adds in part 1: the id of a possible game, 0 otherwise. */
  function PossibleId(line: string): nat
  {
    match TryParse(line) case Some(g) => if IsPossible(g) then g.id else 0 case None => 0
  }

  /** What one line adds in part 2: the power of its game, 0 when it does not parse. */
  function LinePower(line: string): nat
  {
    match TryParse(line) case Some(g) => Power(g) case None => 0
  }

  /** Part 1: the sum of the ids of the possible games among the lines that parse. */
  function SumPossibleIds(lines: seq<string>): (r: nat)
    ensures r == 0 <==> forall i :: 0 <= i < |lines| ==> PossibleId(lines[i]) == 0
  {
    if lines == [] then 0
    else
      assert forall i :: 1 <= i < |lines| ==> lines[i] == lines[1..][i - 1];
      PossibleId(lines[0]) + SumPossibleIds(lines[1..])
  }

  /** Part 2: the sum of the powers of the games among the lines that parse. */
  function SumPowers(lines: seq<string>): (r: nat)
    ensures r == 0 <==> forall i :: 0 <= i < |lines| ==> LinePower(lines[i]) == 0
  {
    if lines == [] then 0
    else
      assert forall i :: 1 <= i < |lines| ==> lines[i] == lines[1..][i - 1];
      LinePower(lines[0]) + SumPowers(lines[1..])
  }

  /** The part-1 sum over two runs of lines is the sum of their sums, so the lines may be
      summed in any grouping, as the parallel iterator does. */
  lemma {:induction false} SumPossibleIdsAppend(a: seq<string>, b: seq<string>)
    ensures SumPossibleIds(a + b) == SumPossibleIds(a) + SumPossibleIds(b)
  {
    if a != [] {
      var ab := a + b;
      assert ab[0] == a[0] && ab[1..] == a[1..] + b;
      SumPossibleIdsAppend(a[1..], b);
    } else {
      assert a + b == b;
    }
  }

  /** The part-2 sum over two runs of lines is the sum of their sums. */
  lemma {:induction false} SumPowersAppend(a: seq<string>, b: seq<string>)
    ensures SumPowers(a + b) == SumPowers(a) + SumPowers(b)
  {
    if a != [] {
      var ab := a + b;
      assert ab[0] == a[0] && ab[1..] == a[1..] + b;
      SumPowersAppend(a[1..], b);
    } else {
      assert a + b == b;
    }
  }

  /** `solve` of part 1: the ids of the possible games added up; 0 exactly when no line
      is a possible game with a non-zero id. */
  function SolvePart1(input: string): (r: nat)
    ensures r == 0 <==> forall i :: 0 <= i < |Lines(input)| ==> PossibleId(Lines(input)[i]) == 0
  {
    SumPossibleIds(Lines(input))
  }

  /** `solve` of part 2: the powers of the games added up; 0 exactly when every line's
      game misses a colour or does not parse. */
  function SolvePart2(input: string): (r: nat)
    ensures r == 0 <==> forall i :: 0 <= i < |Lines(input)| ==> LinePower(Lines(input)[i]) == 0
  {
    SumPowers(Lines(input))
  }
}
