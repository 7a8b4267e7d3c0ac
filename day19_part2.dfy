/** Day 19, part 2: instead of single parts, boxes of parts flow through the workflows. A
    box holds a range of each rating; every rule cuts the box into the parts that pass its
    test and those that fail it, the passing box goes where the rule says and the failing
    one on to the next rule. The answer is the number of parts, of ratings 1 to 4000, that
    end up accepted. */
module Day19Part2 {
  import opened Text
  import R = Day19SplitRange
  import opened Day19Part1

  /** `State`: a box of parts and the workflow it is at. */
  datatype State = State(x: R.Range, m: R.Range, a: R.Range, s: R.Range, id: string)

  function Field(state: State, category: Category): R.Range
  {
    match category
    case X => state.x
    case M => state.m
    case A => state.a
    case S => state.s
  }

  /** The box with one rating's range replaced; `Self { x, ..self }` and its kin. */
  function WithField(state: State, category: Category, r: R.Range): (st: State)
    ensures Field(st, category) == r && st.id == state.id
    ensures forall c :: c != category ==> Field(st, c) == Field(state, c)
  {
    match category
    case X => state.(x := r)
    case M => state.(m := r)
    case A => state.(a := r)
    case S => state.(s := r)
  }

  predicate Contains(state: State, part: Part)
  {
    forall c :: R.In(Field(state, c), Rating(part, c))
  }

  predicate InState(state: Option<State>, part: Part)
  {
    state.Some? && Contains(state.value, part)
  }

  /** A box whose four ranges are the same holds the parts with every rating in it. */
  lemma ContainsCube(st: State, r: R.Range)
    requires st.x == r && st.m == r && st.a == r && st.s == r
    ensures forall part :: Contains(st, part) <==>
      R.In(r, part.x) && R.In(r, part.m) && R.In(r, part.a) && R.In(r, part.s)
  {
    forall part: Part | R.In(r, part.x) && R.In(r, part.m) && R.In(r, part.a) && R.In(r, part.s)
      ensures Contains(st, part)
    {
      forall c ensures R.In(Field(st, c), Rating(part, c)) {
        match c
        case X =>
        case M =>
        case A =>
        case S =>
      }
    }
    forall part: Part | Contains(st, part)
      ensures R.In(r, part.x) && R.In(r, part.m) && R.In(r, part.a) && R.In(r, part.s)
    {
      assert R.In(Field(st, X), Rating(part, X)) && R.In(Field(st, M), Rating(part, M));
      assert R.In(Field(st, A), Rating(part, A)) && R.In(Field(st, S), Rating(part, S));
    }
  }

  /** `State::new`: every rating from 1 to 4000, at workflow "in". */
  function Init(): (st: State)
    ensures st.id == "in"
    ensures forall part :: Contains(st, part) <==>
      1 <= part.x <= 4000 && 1 <= part.m <= 4000 && 1 <= part.a <= 4000 && 1 <= part.s <= 4000
  {
    var all := R.Range(1, 4001);
    ContainsCube(State(all, all, all, all, "in"), all);
    State(all, all, all, all, "in")
  }

  /** `State::combinations`: the number of parts in the box. */
  function Combinations(state: State): nat
  {
    R.Len(state.x) * R.Len(state.m) * R.Len(state.a) * R.Len(state.s)
  }

  function Combos(state: Option<State>): nat
  {
    if state.None? then 0 else Combinations(state.value)
  }

  /** The box from 1 to 4000 in every rating holds 4000 to the 4 parts. */
  lemma InitCombinations()
    ensures Combinations(Init()) == 256_000_000_000_000
  {
  }

  /** The product of the lengths of the other three ranges. */
  function Rest(state: State, category: Category): nat
  {
    match category
    case X => R.Len(state.m) * R.Len(state.a) * R.Len(state.s)
    case M => R.Len(state.x) * R.Len(state.a) * R.Len(state.s)
    case A => R.Len(state.x) * R.Len(state.m) * R.Len(state.s)
    case S => R.Len(state.x) * R.Len(state.m) * R.Len(state.a)
  }

  lemma CombinationsBy(state: State, category: Category)
    ensures Combinations(state) == R.Len(Field(state, category)) * Rest(state, category)
  {
    Reorder(R.Len(state.x), R.Len(state.m), R.Len(state.a), R.Len(state.s));
  }

  lemma Reorder(x: nat, m: nat, a: nat, s: nat)
    ensures x * m * a * s == x * (m * a * s) == m * (x * a * s) == a * (x * m * s) == s * (x * m * a)
  {
    assert x * m * a * s == x * (m * a * s);
    assert x * m * a * s == m * (x * a * s);
    assert x * m * a * s == a * (x * m * s);
  }

  lemma RestWith(state: State, category: Category, r: R.Range)
    ensures Rest(WithField(state, category, r), category) == Rest(state, category)
  {
  }

  /** The parts of a box with one range replaced are those whose rating lies in the new
      range and whose other ratings lie in the box. */
  lemma ContainsWith(state: State, category: Category, r: R.Range, part: Part)
    ensures Contains(WithField(state, category, r), part) <==>
      R.In(r, Rating(part, category)) && forall c :: c != category ==> R.In(Field(state, c), Rating(part, c))
  {
    var st := WithField(state, category, r);
    if Contains(st, part) {
      assert R.In(Field(st, category), Rating(part, category));
    }
  }

  lemma ContainsBy(state: State, category: Category, part: Part)
    ensures Contains(state, part) <==>
      R.In(Field(state, category), Rating(part, category)) && forall c :: c != category ==> R.In(Field(state, c), Rating(part, c))
  {
  }

  /** One side of a cut range put back into the box. */
  function Lift(state: State, category: Category, r: Option<R.Range>): (st: Option<State>)
    ensures st.Some? <==> r.Some?
    ensures st.Some? ==> st.value == WithField(state, category, r.value)
  {
    if r.None? then None else Some(WithField(state, category, r.value))
  }

  /** Cutting one rating's range at `value` cuts the box into the parts below and those at
      or above. */
  lemma LiftCutParts(state: State, category: Category, value: int, part: Part)
    ensures var (lhs, rhs) := R.Split(Field(state, category), value);
      && (InState(Lift(state, category, lhs), part) <==> Contains(state, part) && Rating(part, category) < value)
      && (InState(Lift(state, category, rhs), part) <==> Contains(state, part) && value <= Rating(part, category))
  {
    var (lhs, rhs) := R.Split(Field(state, category), value);
    ContainsBy(state, category, part);
    if lhs.Some? {
      ContainsWith(state, category, lhs.value, part);
    }
    if rhs.Some? {
      ContainsWith(state, category, rhs.value, part);
    }
  }

  /** A box put back with the range `r` in place of one rating's holds `Len(r)` times the
      rest. */
  lemma LiftCombos(state: State, category: Category, r: Option<R.Range>)
    ensures Combos(Lift(state, category, r)) == R.PartLen(r) * Rest(state, category)
  {
    if r.Some? {
      CombinationsBy(WithField(state, category, r.value), category);
      RestWith(state, category, r.value);
    }
  }

  /** Cutting one rating's range cuts no part away and counts none twice. */
  lemma LiftCutCombos(state: State, category: Category, value: int)
    ensures var (lhs, rhs) := R.Split(Field(state, category), value);
      Combos(Lift(state, category, lhs)) + Combos(Lift(state, category, rhs)) == Combinations(state)
  {
    var (lhs, rhs) := R.Split(Field(state, category), value);
    var rest := Rest(state, category);
    CombinationsBy(state, category);
    LiftCombos(state, category, lhs);
    LiftCombos(state, category, rhs);
    Distribute(R.PartLen(lhs), R.PartLen(rhs), rest);
  }

  lemma Distribute(p: nat, q: nat, r: nat)
    ensures p * r + q * r == (p + q) * r
  {
  }

  /** `State::split`: the parts of the box that pass a rule's test and those that fail it.
      An "above `value`" test cuts at `value + 1` and keeps the upper side; a "below" test
      cuts at `value` and keeps the lower side. */
  function SplitState(state: State, condition: Condition): (parts: (Option<State>, Option<State>))
    ensures parts.0.Some? ==> parts.0.value.id == state.id
    ensures parts.1.Some? ==> parts.1.value.id == state.id
  {
    match condition
    case Always => (Some(state), None)
    case Greater(category, value) =>
      var (lhs, rhs) := R.Split(Field(state, category), value + 1);
      (Lift(state, category, rhs), Lift(state, category, lhs))
    case Less(category, value) =>
      var (lhs, rhs) := R.Split(Field(state, category), value);
      (Lift(state, category, lhs), Lift(state, category, rhs))
  }

  /** The passing box holds exactly the parts of the box that pass the test and the failing
      box the others; the test passes everything when there is none. */
  lemma SplitParts(state: State, condition: Condition, part: Part)
    ensures InState(SplitState(state, condition).0, part) <==> Contains(state, part) && Holds(part, condition)
    ensures InState(SplitState(state, condition).1, part) <==> Contains(state, part) && !Holds(part, condition)
  {
    match condition
    case Always =>
    case Greater(category, value) => LiftCutParts(state, category, value + 1, part);
    case Less(category, value) => LiftCutParts(state, category, value, part);
  }

  /** Together the two boxes hold as many parts as the box. */
  lemma SplitCombos(state: State, condition: Condition)
    ensures Combos(SplitState(state, condition).0) + Combos(SplitState(state, condition).1) == Combinations(state)
  {
    match condition
    case Always =>
    case Greater(category, value) => LiftCutCombos(state, category, value + 1);
    case Less(category, value) => LiftCutCombos(state, category, value);
  }

  /** A test leaves the ranges of the other ratings alone, and the rule without a test sends the
      whole box to its target. */
  lemma SplitKeeps(state: State, condition: Condition)
    ensures condition.Always? ==> SplitState(state, condition) == (Some(state), None)
    ensures !condition.Always? ==> forall c :: c != condition.category ==>
      (SplitState(state, condition).0.Some? ==> Field(SplitState(state, condition).0.value, c) == Field(state, c))
      && (SplitState(state, condition).1.Some? ==> Field(SplitState(state, condition).1.value, c) == Field(state, c))
  {
  }

  /** `State::split` as written, where `value + 1` is a `u16` sum that wraps to 0 when the
      value is 65535 (the release build's overflow behaviour). */
  function SplitStateAsWritten(state: State, condition: Condition): (parts: (Option<State>, Option<State>))
    ensures !condition.Greater? || condition.value < 0xFFFF ==> parts == SplitState(state, condition)
  {
    match condition
    case Greater(category, value) =>
      var (lhs, rhs) := R.Split(Field(state, category), (value + 1) % 0x1_0000);
      (Lift(state, category, rhs), Lift(state, category, lhs))
    case _ => SplitState(state, condition)
  }

  /** The test "x>65535" is one that parses. */
  lemma WrappedTestParses()
    ensures ParseRule(RuleText(Rule(Greater(X, 0xFFFF), Accept))) == Some(Rule(Greater(X, 0xFFFF), Accept))
  {
    ParseRuleOfText(Rule(Greater(X, 0xFFFF), Accept));
  }

  /** As written, the test "x>65535" lets through a part whose x rating is 1, which part 1
      and `SplitState` both keep out. */
  lemma WrappedTestPasses()
    ensures !Holds(Part(1, 1, 1, 1), Greater(X, 0xFFFF))
    ensures InState(SplitStateAsWritten(Init(), Greater(X, 0xFFFF)).0, Part(1, 1, 1, 1))
    ensures !InState(SplitState(Init(), Greater(X, 0xFFFF)).0, Part(1, 1, 1, 1))
  {
    var init := Init();
    assert R.Split(init.x, 0) == (None, Some(init.x));
    assert WithField(init, X, init.x) == init;
    SplitParts(init, Greater(X, 0xFFFF), Part(1, 1, 1, 1));
  }

  /** What one rule's passing box does: its action and the box. */
  datatype Piece = Piece(action: Action, state: State)

  /** The `try_fold` over a workflow's rules: the passing box of each rule in turn, until
      nothing is left to fail. */
  function Pieces(state: State, rules: seq<Rule>): seq<Piece>
    decreases |rules|
  {
    if rules == [] then []
    else
      var (pass, fail) := SplitState(state, rules[0].condition);
      (if pass.Some? then [Piece(rules[0].action, pass.value)] else [])
      + (if fail.Some? then Pieces(fail.value, rules[1..]) else [])
  }

  /** The pieces the fold still makes from the box it carries, if any. */
  function PiecesFrom(current: Option<State>, rules: seq<Rule>): seq<Piece>
  {
    if current.Some? then Pieces(current.value, rules) else []
  }

  /** What the fold has left when the rules run out; it is dropped. */
  function Leftover(state: State, rules: seq<Rule>): Option<State>
    decreases |rules|
  {
    if rules == [] then Some(state)
    else
      var fail := SplitState(state, rules[0].condition).1;
      if fail.None? then None else Leftover(fail.value, rules[1..])
  }

  /** The first rule decides when its test holds, and otherwise the rest do. */
  lemma FirstMatchCons(rules: seq<Rule>, part: Part)
    requires rules != []
    ensures FirstMatch(rules, part) ==
      if Holds(part, rules[0].condition) then Some(rules[0].action) else FirstMatch(rules[1..], part)
  {
  }

  /** A part in a piece was in the box, and the first rule whose test it passes is the rule
      that made the piece. */
  lemma {:induction false} PiecesSound(state: State, rules: seq<Rule>, k: nat, part: Part)
    requires k < |Pieces(state, rules)| && Contains(Pieces(state, rules)[k].state, part)
    ensures Contains(state, part) && FirstMatch(rules, part) == Some(Pieces(state, rules)[k].action)
    decreases |rules|
  {
    PiecesNonEmpty(state, rules);
    PieceAt(state, rules, k);
    var (pass, fail) := SplitState(state, rules[0].condition);
    SplitParts(state, rules[0].condition, part);
    FirstMatchCons(rules, part);
    if !(pass.Some? && k == 0) {
      var j := if pass.Some? then k - 1 else k;
      PiecesSound(fail.value, rules[1..], j, part);
    }
  }

  /** A box that yields a piece had a rule to yield it. */
  lemma PiecesNonEmpty(state: State, rules: seq<Rule>)
    requires |Pieces(state, rules)| > 0
    ensures rules != []
  {
  }

  /** Where the fold's `k`th piece comes from: the first rule's passing box, or the rest of
      the rules applied to its failing box. */
  lemma PieceAt(state: State, rules: seq<Rule>, k: nat)
    requires rules != [] && k < |Pieces(state, rules)|
    ensures var split := SplitState(state, rules[0].condition);
      if split.0.Some? && k == 0 then Pieces(state, rules)[k] == Piece(rules[0].action, split.0.value)
      else
        var j := if split.0.Some? then k - 1 else k;
        && split.1.Some? && j < |Pieces(split.1.value, rules[1..])|
        && Pieces(state, rules)[k] == Pieces(split.1.value, rules[1..])[j]
  {
    var split := SplitState(state, rules[0].condition);
    PiecesCases(state, rules);
    var pieces := Pieces(state, rules);
    var tail := PiecesFrom(split.1, rules[1..]);
    if split.0.Some? {
      assert pieces == [Piece(rules[0].action, split.0.value)] + tail;
      if k > 0 {
        assert pieces[k] == tail[k - 1];
      }
    } else {
      assert pieces == tail;
    }
  }

  /** Every piece is still at the workflow of the box. */
  lemma {:induction false} PiecesId(state: State, rules: seq<Rule>)
    ensures forall k :: 0 <= k < |Pieces(state, rules)| ==> Pieces(state, rules)[k].state.id == state.id
    decreases |rules|
  {
    if rules != [] {
      var (pass, fail) := SplitState(state, rules[0].condition);
      PiecesCases(state, rules);
      if fail.Some? {
        PiecesId(fail.value, rules[1..]);
      }
    }
  }

  /** The fold's first step, case by case. */
  lemma PiecesCases(state: State, rules: seq<Rule>)
    requires rules != []
    ensures var (pass, fail) := SplitState(state, rules[0].condition);
      && (pass.Some? ==> Pieces(state, rules) == [Piece(rules[0].action, pass.value)] + PiecesFrom(fail, rules[1..]))
      && (pass.None? ==> Pieces(state, rules) == PiecesFrom(fail, rules[1..]))
  {
    var (pass, fail) := SplitState(state, rules[0].condition);
    if pass.None? {
      assert [] + PiecesFrom(fail, rules[1..]) == PiecesFrom(fail, rules[1..]);
    }
  }

  /** Every part of the box that some rule's test lets through is in a piece. */
  lemma {:induction false} PiecesComplete(state: State, rules: seq<Rule>, part: Part)
    requires Contains(state, part) && FirstMatch(rules, part).Some?
    ensures exists k :: 0 <= k < |Pieces(state, rules)| && Contains(Pieces(state, rules)[k].state, part)
    decreases |rules|
  {
    var (pass, fail) := SplitState(state, rules[0].condition);
    SplitParts(state, rules[0].condition, part);
    FirstMatchCons(rules, part);
    if Holds(part, rules[0].condition) {
      PiecesCases(state, rules);
      assert Pieces(state, rules)[0].state == pass.value;
    } else {
      PiecesComplete(fail.value, rules[1..], part);
      var rest := Pieces(fail.value, rules[1..]);
      var j :| 0 <= j < |rest| && Contains(rest[j].state, part);
      PieceOfRest(state, rules, j);
      var k := if pass.Some? then j + 1 else j;
      assert Contains(Pieces(state, rules)[k].state, part);
    }
  }

  /** The rest of the rules' `j`th piece from the failing box is the fold's piece `j`, or
      `j + 1` when the first rule passed a box too. */
  lemma PieceOfRest(state: State, rules: seq<Rule>, j: nat)
    requires rules != [] && SplitState(state, rules[0].condition).1.Some?
    requires j < |Pieces(SplitState(state, rules[0].condition).1.value, rules[1..])|
    ensures var (pass, fail) := SplitState(state, rules[0].condition);
      var k := if pass.Some? then j + 1 else j;
      k < |Pieces(state, rules)| && Pieces(state, rules)[k] == Pieces(fail.value, rules[1..])[j]
  {
    PiecesCases(state, rules);
  }

  /** The parts left over are those of the box that no rule's test lets through. */
  lemma {:induction false} LeftoverParts(state: State, rules: seq<Rule>)
    ensures forall part :: InState(Leftover(state, rules), part) <==> Contains(state, part) && FirstMatch(rules, part).None?
    decreases |rules|
  {
    if rules != [] {
      var fail := SplitState(state, rules[0].condition).1;
      if fail.Some? {
        LeftoverParts(fail.value, rules[1..]);
      }
      forall part ensures InState(Leftover(state, rules), part) <==> Contains(state, part) && FirstMatch(rules, part).None? {
        SplitParts(state, rules[0].condition, part);
        FirstMatchCons(rules, part);
      }
    }
  }

  function SumCombos(pieces: seq<Piece>): nat
  {
    if pieces == [] then 0 else Combinations(pieces[0].state) + SumCombos(pieces[1..])
  }

  /** No part is lost or counted twice: the pieces and the leftover hold as many parts as
      the box. */
  lemma {:induction false} PiecesConserve(state: State, rules: seq<Rule>)
    ensures SumCombos(Pieces(state, rules)) + Combos(Leftover(state, rules)) == Combinations(state)
    decreases |rules|
  {
    if rules != [] {
      var (pass, fail) := SplitState(state, rules[0].condition);
      PiecesCases(state, rules);
      SplitCombos(state, rules[0].condition);
      var rest := PiecesFrom(fail, rules[1..]);
      if pass.Some? {
        var pieces := [Piece(rules[0].action, pass.value)] + rest;
        assert pieces[0].state == pass.value && pieces[1..] == rest;
      }
      if fail.Some? {
        PiecesConserve(fail.value, rules[1..]);
      }
    }
  }

  /** The parts the pieces accept, added to `result`. */
  function AcceptedCombos(pieces: seq<Piece>): nat
  {
    if pieces == [] then 0
    else (if pieces[0].action == Accept then Combinations(pieces[0].state) else 0) + AcceptedCombos(pieces[1..])
  }

  /** The boxes the pieces push to the queue, each now at its rule's workflow. */
  function Forwarded(pieces: seq<Piece>): seq<State>
  {
    if pieces == [] then []
    else
      (if pieces[0].action.NextWorkflow? then [pieces[0].state.(id := pieces[0].action.id)] else [])
      + Forwarded(pieces[1..])
  }

  function SumStates(states: seq<State>): nat
  {
    if states == [] then 0 else Combinations(states[0]) + SumStates(states[1..])
  }

  lemma {:induction false} SumStatesAppend(a: seq<State>, b: seq<State>)
    ensures SumStates(a + b) == SumStates(a) + SumStates(b)
    decreases |a|
  {
    if a != [] {
      assert (a + b)[0] == a[0] && (a + b)[1..] == a[1..] + b;
      SumStatesAppend(a[1..], b);
    } else {
      assert a + b == b;
    }
  }

  /** The accepted parts and the forwarded boxes are at most the parts of the pieces. */
  lemma {:induction false} AcceptedAndForwarded(pieces: seq<Piece>)
    ensures AcceptedCombos(pieces) + SumStates(Forwarded(pieces)) <= SumCombos(pieces)
    decreases |pieces|
  {
    if pieces != [] {
      AcceptedAndForwarded(pieces[1..]);
      var head := if pieces[0].action.NextWorkflow? then [pieces[0].state.(id := pieces[0].action.id)] else [];
      SumStatesAppend(head, Forwarded(pieces[1..]));
    }
  }

  /** How draining the queue ends: with the parts accepted, with a panic at a missing
      workflow, or with the allotted number of boxes used up. */
  datatype Outcome = Counted(n: nat) | Panicked | Exhausted

  function Plus(n: nat, outcome: Outcome): Outcome
  {
    if outcome.Counted? then Counted(n + outcome.n) else outcome
  }

  /** The loop of `solve` from `queue`, taking at most `fuel` boxes off it. */
  function Drain(w: Workflows, queue: seq<State>, fuel: nat): Outcome
    decreases fuel
  {
    if queue == [] then Counted(0)
    else if fuel == 0 then Exhausted
    else if queue[0].id !in w then Panicked
    else
      var pieces := Pieces(queue[0], w[queue[0].id]);
      Plus(AcceptedCombos(pieces), Drain(w, queue[1..] + Forwarded(pieces), fuel - 1))
  }

  /** Draining a queue counts no more parts than its boxes hold. */
  lemma {:induction false} DrainBound(w: Workflows, queue: seq<State>, fuel: nat)
    ensures Drain(w, queue, fuel).Counted? ==> Drain(w, queue, fuel).n <= SumStates(queue)
    decreases fuel
  {
    if queue != [] && fuel > 0 && queue[0].id in w {
      var pieces := Pieces(queue[0], w[queue[0].id]);
      var next := queue[1..] + Forwarded(pieces);
      DrainBound(w, next, fuel - 1);
      SumStatesAppend(queue[1..], Forwarded(pieces));
      AcceptedAndForwarded(pieces);
      PiecesConserve(queue[0], w[queue[0].id]);
    }
  }

  /** The box holding the single part `part`, at workflow `id`. */
  function Unit(part: Part, id: string): (st: State)
    ensures forall other :: Contains(st, other) <==> other == part
  {
    UnitContains(part, id);
    State(R.Range(part.x, part.x + 1), R.Range(part.m, part.m + 1),
      R.Range(part.a, part.a + 1), R.Range(part.s, part.s + 1), id)
  }

  lemma UnitContains(part: Part, id: string)
    ensures var st := State(R.Range(part.x, part.x + 1), R.Range(part.m, part.m + 1),
      R.Range(part.a, part.a + 1), R.Range(part.s, part.s + 1), id);
      forall other :: Contains(st, other) <==> other == part
  {
    var st := State(R.Range(part.x, part.x + 1), R.Range(part.m, part.m + 1),
      R.Range(part.a, part.a + 1), R.Range(part.s, part.s + 1), id);
    forall other: Part | Contains(st, other) ensures other == part {
      assert R.In(Field(st, X), Rating(other, X)) && R.In(Field(st, M), Rating(other, M));
      assert R.In(Field(st, A), Rating(other, A)) && R.In(Field(st, S), Rating(other, S));
    }
    forall c ensures R.In(Field(st, c), Rating(part, c)) {
    }
  }

  /** A box of one part is never cut: it goes whole to the side its test puts the part. */
  lemma SplitUnit(part: Part, id: string, condition: Condition)
    ensures SplitState(Unit(part, id), condition) ==
      if Holds(part, condition) then (Some(Unit(part, id)), None) else (None, Some(Unit(part, id)))
  {
    var u := Unit(part, id);
    match condition
    case Always =>
    case Greater(category, value) =>
      R.SplitSingle(Rating(part, category), value + 1);
      assert WithField(u, category, Field(u, category)) == u by {
        match category
        case X =>
        case M =>
        case A =>
        case S =>
      }
    case Less(category, value) =>
      R.SplitSingle(Rating(part, category), value);
      assert WithField(u, category, Field(u, category)) == u by {
        match category
        case X =>
        case M =>
        case A =>
        case S =>
      }
  }

  /** A box of one part makes one piece, with the action of the first rule that lets the part
      through, or none. */
  lemma {:induction false} UnitPieces(part: Part, id: string, rules: seq<Rule>)
    ensures Pieces(Unit(part, id), rules) ==
      if FirstMatch(rules, part).Some? then [Piece(FirstMatch(rules, part).value, Unit(part, id))] else []
    decreases |rules|
  {
    if rules != [] {
      SplitUnit(part, id, rules[0].condition);
      if !Holds(part, rules[0].condition) {
        UnitPieces(part, id, rules[1..]);
      }
    }
  }

  /** A part that finds no rule to let it through at a workflow makes part 1 visit that
      workflow forever. */
  lemma {:induction false} NoMatchLoops(w: Workflows, part: Part, id: string, fuel: nat)
    requires id in w && FirstMatch(w[id], part).None?
    ensures Run(w, part, id, fuel) == Unfinished
    decreases fuel
  {
    if fuel > 0 {
      NoMatchLoops(w, part, id, fuel - 1);
    }
  }

  /** A box that its workflow passes whole to one action: it is counted, dropped or moved on
      whole. */
  lemma DrainWhole(w: Workflows, u: State, action: Action, fuel: nat)
    requires fuel > 0 && u.id in w && Pieces(u, w[u.id]) == [Piece(action, u)]
    ensures Drain(w, [u], fuel) == match action
      case Accept => Counted(Combinations(u))
      case Reject => Counted(0)
      case NextWorkflow(next) => Drain(w, [u.(id := next)], fuel - 1)
  {
    var pieces := [Piece(action, u)];
    assert [u][1..] == [] && pieces[1..] == [] && pieces[0] == Piece(action, u);
    assert Forwarded(pieces[1..]) == [] && AcceptedCombos(pieces[1..]) == 0;
    var forwarded := Forwarded(pieces);
    assert Drain(w, [u], fuel) == Plus(AcceptedCombos(pieces), Drain(w, [] + forwarded, fuel - 1));
    if action.NextWorkflow? {
      assert forwarded == [u.(id := action.id)];
      assert [] + forwarded == forwarded;
      var rest := Drain(w, forwarded, fuel - 1);
      assert Plus(0, rest) == rest;
    } else {
      assert forwarded == [];
    }
  }

  lemma UnitCombinations(part: Part, id: string)
    ensures Combinations(Unit(part, id)) == 1
  {
  }

  /** What one box of a single part does at a workflow with a rule that lets it through. */
  lemma DrainUnit(w: Workflows, part: Part, id: string, fuel: nat)
    requires fuel > 0 && id in w && FirstMatch(w[id], part).Some?
    ensures Drain(w, [Unit(part, id)], fuel) == match FirstMatch(w[id], part).value
      case Accept => Counted(1)
      case Reject => Counted(0)
      case NextWorkflow(next) => Drain(w, [Unit(part, next)], fuel - 1)
  {
    var action := FirstMatch(w[id], part).value;
    UnitPieces(part, id, w[id]);
    DrainWhole(w, Unit(part, id), action, fuel);
    UnitCombinations(part, id);
    if action.NextWorkflow? {
      assert Unit(part, id).(id := action.id) == Unit(part, action.id);
    }
  }

  /** What one visit of part 1 does when a rule lets the part through. */
  lemma RunVisit(w: Workflows, part: Part, id: string, fuel: nat)
    requires fuel > 0 && id in w && FirstMatch(w[id], part).Some?
    ensures Run(w, part, id, fuel) == match FirstMatch(w[id], part).value
      case Accept => Accepted
      case Reject => Rejected
      case NextWorkflow(next) => Run(w, part, next, fuel - 1)
  {
  }

  /** For one part, part 2 agrees with part 1: a box of that part alone counts one part
      when part 1 accepts it, none when part 1 rejects it, and panics when part 1 does. */
  lemma {:induction false} SingleAgrees(w: Workflows, part: Part, id: string, fuel: nat)
    ensures Run(w, part, id, fuel) == Accepted ==> Drain(w, [Unit(part, id)], fuel) == Counted(1)
    ensures Run(w, part, id, fuel) == Rejected ==> Drain(w, [Unit(part, id)], fuel) == Counted(0)
    ensures Run(w, part, id, fuel) == Stuck ==> Drain(w, [Unit(part, id)], fuel) == Panicked
    decreases fuel
  {
    if fuel > 0 && id in w {
      if FirstMatch(w[id], part).None? {
        NoMatchLoops(w, part, id, fuel);
      } else {
        var action := FirstMatch(w[id], part).value;
        DrainUnit(w, part, id, fuel);
        RunVisit(w, part, id, fuel);
        if action.NextWorkflow? {
          SingleAgrees(w, part, action.id, fuel - 1);
        }
      }
    } else if fuel > 0 {
      assert [Unit(part, id)][0].id !in w;
    }
  }

  /** The workflows of a puzzle input; part 2 never reads the parts. */
  function ParseInput(input: string): Option<Workflows>
  {
    match SplitOnce(input, "\n\n")
    case None => None
    case Some((workflows, _)) =>
      match ParseEach(Lines(workflows), ParseWorkflow)
      case None => None
      case Some(ws) => Some(Index(ws))
  }

  /** The parts a piece adds to `result`. */
  function Gain(piece: Piece): nat
  {
    if piece.action == Accept then Combinations(piece.state) else 0
  }

  /** The boxes a piece pushes to the queue. */
  function Push(piece: Piece): seq<State>
  {
    if piece.action.NextWorkflow? then [piece.state.(id := piece.action.id)] else []
  }

  /** One step of the fold at rule `i`: what the passing box adds and pushes, then the fold
      of the later rules over the failing box. */
  lemma FoldStep(current: State, rules: seq<Rule>, i: nat)
    requires i < |rules|
    ensures var (pass, fail) := SplitState(current, rules[i].condition);
      var rest := PiecesFrom(fail, rules[i + 1..]);
      && AcceptedCombos(Pieces(current, rules[i..])) ==
        (if pass.Some? then Gain(Piece(rules[i].action, pass.value)) else 0) + AcceptedCombos(rest)
      && Forwarded(Pieces(current, rules[i..])) ==
        (if pass.Some? then Push(Piece(rules[i].action, pass.value)) else []) + Forwarded(rest)
  {
    var (pass, fail) := SplitState(current, rules[i].condition);
    var rest := PiecesFrom(fail, rules[i + 1..]);
    assert rules[i..][0] == rules[i] && rules[i..][1..] == rules[i + 1..];
    if pass.Some? {
      var piece := Piece(rules[i].action, pass.value);
      assert Pieces(current, rules[i..]) == [piece] + rest;
      assert ([piece] + rest)[0] == piece && ([piece] + rest)[1..] == rest;
    } else {
      assert Pieces(current, rules[i..]) == rest;
      assert [] + Forwarded(rest) == Forwarded(rest);
    }
  }

  lemma AppendAssoc<T>(a: seq<T>, b: seq<T>, c: seq<T>)
    ensures a + (b + c) == (a + b) + c
  {
  }

  /** The closure of the `try_fold`: split the box by the rule's test, count or push the
      passing box as the rule's action says, and hand on the failing one. */
  method ApplyRule(state: State, rule: Rule) returns (gain: nat, pushed: seq<State>, fail: Option<State>)
    ensures var (pass, rest) := SplitState(state, rule.condition);
      && fail == rest
      && gain == (if pass.Some? then Gain(Piece(rule.action, pass.value)) else 0)
      && pushed == (if pass.Some? then Push(Piece(rule.action, pass.value)) else [])
  {
    var pass;
    pass, fail := SplitState(state, rule.condition).0, SplitState(state, rule.condition).1;
    gain, pushed := 0, [];
    if pass.Some? {
      match rule.action
      case Accept => gain := Combinations(pass.value);
      case Reject =>
      case NextWorkflow(id) => pushed := [pass.value.(id := id)];
    }
  }

  /** The `try_fold` of `solve` over one workflow's rules. */
  method FoldRules(state: State, rules: seq<Rule>) returns (accepted: nat, forwarded: seq<State>)
    ensures accepted == AcceptedCombos(Pieces(state, rules))
    ensures forwarded == Forwarded(Pieces(state, rules))
  {
    accepted := 0;
    forwarded := [];
    var current := Some(state);
    var i := 0;
    assert rules[0..] == rules;
    while i < |rules| && current.Some?
      invariant i <= |rules|
      invariant accepted + AcceptedCombos(PiecesFrom(current, rules[i..])) == AcceptedCombos(Pieces(state, rules))
      invariant forwarded + Forwarded(PiecesFrom(current, rules[i..])) == Forwarded(Pieces(state, rules))
    {
      FoldStep(current.value, rules, i);
      var gain, pushed, fail := ApplyRule(current.value, rules[i]);
      AppendAssoc(forwarded, pushed, Forwarded(PiecesFrom(fail, rules[i + 1..])));
      accepted := accepted + gain;
      forwarded := forwarded + pushed;
      current := fail;
      i := i + 1;
    }
    if current.Some? {
      assert rules[i..] == [];
    }
  }

  /** `solve` with at most `fuel` boxes taken off the queue: the number of accepted parts,
      which never exceeds 4000 to the 4 and so fits the `usize` it is summed in. */
  method Solve(input: string, fuel: nat) returns (r: Outcome)
    ensures ParseInput(input).None? ==> r == Panicked
    ensures ParseInput(input).Some? ==> r == Drain(ParseInput(input).value, [Init()], fuel)
    ensures r.Counted? ==> r.n <= 256_000_000_000_000
  {
    var parsed := ParseInput(input);
    if parsed.None? {
      return Panicked;
    }
    var w := parsed.value;
    r := DrainQueue(w, fuel);
    DrainBound(w, [Init()], fuel);
    InitCombinations();
    assert SumStates([Init()]) == Combinations(Init());
  }

  /** The queue loop of `solve`. */
  method DrainQueue(w: Workflows, fuel: nat) returns (r: Outcome)
    ensures r == Drain(w, [Init()], fuel)
  {
    var queue := [Init()];
    var result := 0;
    var steps := 0;
    while queue != []
      invariant steps <= fuel
      invariant Drain(w, [Init()], fuel) == Plus(result, Drain(w, queue, fuel - steps))
      decreases fuel - steps
    {
      if steps == fuel {
        return Exhausted;
      }
      var state := queue[0];
      if state.id !in w {
        return Panicked;
      }
      var accepted, forwarded := FoldRules(state, w[state.id]);
      result := result + accepted;
      queue := queue[1..] + forwarded;
      steps := steps + 1;
    }
    return Counted(result);
  }
}
