/** Day 19, part 1: workflows of rules sort machine parts. Each rule may test one rating of
    a part against a value; the first rule whose test holds sends the part to another
    workflow, accepts it or rejects it. Every part starts at workflow "in", and the answer
    is the sum of the ratings of the accepted parts. */
module Day19Part1 {
  import opened Text

  datatype Category = X | M | A | S

  /** A rule's test: none, or one rating above or below a value. */
  datatype Condition = Always | Greater(category: Category, value: nat) | Less(category: Category, value: nat)

  datatype Action = Accept | Reject | NextWorkflow(id: string)

  datatype Rule = Rule(condition: Condition, action: Action)

  datatype Workflow = Workflow(id: string, rules: seq<Rule>)

  datatype Part = Part(x: nat, m: nat, a: nat, s: nat)

  /** The workflows by name. */
  type Workflows = map<string, seq<Rule>>

  /** `str::trim_start_matches(c)`: `s` without every leading `c`. */
  function TrimStartChar(s: string, c: char): (r: string)
    ensures |r| <= |s| && r == s[|s| - |r|..]
    ensures r == [] || r[0] != c
    ensures forall k :: 0 <= k < |s| - |r| ==> s[k] == c
  {
    if s != [] && s[0] == c then TrimStartChar(s[1..], c) else s
  }

  /** `str::trim_end_matches(c)`: `s` without every trailing `c`. */
  function TrimEndChar(s: string, c: char): (r: string)
    ensures |r| <= |s| && r == s[..|r|]
    ensures r == [] || r[|r| - 1] != c
    ensures forall k :: |r| <= k < |s| ==> s[k] == c
  {
    if s != [] && s[|s| - 1] == c then TrimEndChar(s[..|s| - 1], c) else s
  }

  /** `Action::parse`: "A" accepts, "R" rejects and any other text names a workflow. */
  function ParseAction(action: string): (r: Action)
    ensures r == Accept <==> action == "A"
    ensures r == Reject <==> action == "R"
    ensures r.NextWorkflow? ==> r.id == action
  {
    if action == "A" then Accept else if action == "R" then Reject else NextWorkflow(action)
  }

  function ParseCategory(c: char): (r: Option<Category>)
    ensures r.Some? <==> c in "xmas"
  {
    match c
    case 'x' => Some(X)
    case 'm' => Some(M)
    case 'a' => Some(A)
    case 's' => Some(S)
    case _ => None
  }

  /** The test named by the two characters before a rule's value, such as "x>" or "s<";
      any other pair panics. */
  function ParseCondition(lhs: string, value: nat): (r: Option<Condition>)
    ensures r.Some? <==> |lhs| == 2 && lhs[0] in "xmas" && lhs[1] in "<>"
    ensures r.Some? ==> !r.value.Always? && r.value.value == value
    ensures r.Some? ==> (r.value.Greater? <==> lhs[1] == '>')
    ensures r.Some? ==> r.value.category == ParseCategory(lhs[0]).value
  {
    if |lhs| != 2 || ParseCategory(lhs[0]).None? then None
    else if lhs[1] == '>' then Some(Greater(ParseCategory(lhs[0]).value, value))
    else if lhs[1] == '<' then Some(Less(ParseCategory(lhs[0]).value, value))
    else None
  }

  /** One rule of `Workflow::parse`: "x>10:abc" tests and acts, while a rule without ':'
      always acts. A test shorter than two characters, an unknown test or a value that is
      no `u16` panics. */
  function ParseRule(rule: string): (r: Option<Rule>)
    ensures ':' !in rule ==> r == Some(Rule(Always, ParseAction(rule)))
  {
    match SplitOnce(rule, ":")
    case None => Some(Rule(Always, ParseAction(rule)))
    case Some((condition, action)) =>
      assert rule[|condition|] == ':';
      if |condition| < 2 then None
      else
        match ParseNat(condition[2..])
        case None => None
        case Some(value) =>
          if value >= 0x1_0000 then None
          else
            match ParseCondition(condition[..2], value)
            case None => None
            case Some(c) => Some(Rule(c, ParseAction(action)))
  }

  /** `Workflow::parse`: "px{a<2006:qkq,m>2090:A,rfg}" is the workflow "px" and its rules;
      a line without '{' or with a rule that panics gives none. */
  function ParseWorkflow(line: string): Option<Workflow>
  {
    match SplitOnce(TrimEndChar(line, '}'), "{")
    case None => None
    case Some((id, rules)) =>
      match ParseEach(Split(rules, ","), ParseRule)
      case None => None
      case Some(parsed) => Some(Workflow(id, parsed))
  }

  /** One rating of `Part::parse`: the `u16` after the first '='. */
  function ParseRating(category: string): (r: Option<nat>)
    ensures r.Some? ==> r.value < 0x1_0000
  {
    match SplitOnce(category, "=")
    case None => None
    case Some((_, value)) =>
      match ParseNat(value)
      case None => None
      case Some(v) => if v < 0x1_0000 then Some(v) else None
  }

  /** `Part::parse`: "{x=787,m=2655,a=1222,s=2876}" read by position; the labels are not
      checked and anything after the fourth rating is never looked at. */
  function ParsePart(line: string): (r: Option<Part>)
    ensures r.Some? ==> r.value.x < 0x1_0000 && r.value.m < 0x1_0000
    ensures r.Some? ==> r.value.a < 0x1_0000 && r.value.s < 0x1_0000
  {
    var categories := Split(TrimEndChar(TrimStartChar(line, '{'), '}'), ",");
    if |categories| < 4 then None
    else
      match (ParseRating(categories[0]), ParseRating(categories[1]),
        ParseRating(categories[2]), ParseRating(categories[3]))
      case (Some(x), Some(m), Some(a), Some(s)) => Some(Part(x, m, a, s))
      case _ => None
  }

  /** No later workflow has the name of the one at `i`. */
  predicate Latest(workflows: seq<Workflow>, i: nat)
    requires i < |workflows|
  {
    forall j :: i < j < |workflows| ==> workflows[j].id != workflows[i].id
  }

  /** The workflows by name, collected into a map as `solve` collects them. */
  function Index(workflows: seq<Workflow>): Workflows
  {
    if workflows == [] then map[]
    else
      var last := workflows[|workflows| - 1];
      Index(workflows[..|workflows| - 1])[last.id := last.rules]
  }

  /** The map holds exactly the names of the workflows, and of two workflows with the same
      name the later one is kept. */
  lemma IndexFacts(workflows: seq<Workflow>)
    ensures forall id :: id in Index(workflows) <==> exists i :: 0 <= i < |workflows| && workflows[i].id == id
    ensures forall i :: 0 <= i < |workflows| && Latest(workflows, i) ==>
      Index(workflows)[workflows[i].id] == workflows[i].rules
  {
    IndexKeys(workflows);
    IndexLatest(workflows);
  }

  lemma {:induction false} IndexKeys(workflows: seq<Workflow>)
    ensures forall id :: id in Index(workflows) <==> exists i :: 0 <= i < |workflows| && workflows[i].id == id
    decreases |workflows|
  {
    if workflows != [] {
      var init := workflows[..|workflows| - 1];
      var last := workflows[|workflows| - 1];
      IndexKeys(init);
      var w := Index(workflows);
      assert w == Index(init)[last.id := last.rules];
      forall id | id in w ensures exists i :: 0 <= i < |workflows| && workflows[i].id == id {
        if id != last.id {
          var i :| 0 <= i < |init| && init[i].id == id;
          assert workflows[i] == init[i];
        }
      }
      forall id | exists i :: 0 <= i < |workflows| && workflows[i].id == id ensures id in w {
        var i :| 0 <= i < |workflows| && workflows[i].id == id;
        if i < |init| {
          assert init[i] == workflows[i];
        }
      }
    }
  }

  lemma {:induction false} IndexLatest(workflows: seq<Workflow>)
    ensures forall i :: 0 <= i < |workflows| && Latest(workflows, i) ==>
      workflows[i].id in Index(workflows) && Index(workflows)[workflows[i].id] == workflows[i].rules
    decreases |workflows|
  {
    if workflows != [] {
      var init := workflows[..|workflows| - 1];
      var last := workflows[|workflows| - 1];
      IndexLatest(init);
      var w := Index(workflows);
      assert w == Index(init)[last.id := last.rules];
      forall i | 0 <= i < |workflows| && Latest(workflows, i)
        ensures workflows[i].id in w && w[workflows[i].id] == workflows[i].rules
      {
        if i < |init| {
          assert init[i] == workflows[i];
          assert workflows[i].id != last.id;
          assert Latest(init, i) by {
            forall j | i < j < |init| ensures init[j].id != init[i].id {
              assert init[j] == workflows[j];
            }
          }
        }
      }
    }
  }


  function Rating(part: Part, category: Category): nat
  {
    match category
    case X => part.x
    case M => part.m
    case A => part.a
    case S => part.s
  }

  /** Whether a rule's test holds for a part. */
  function Holds(part: Part, condition: Condition): bool
  {
    match condition
    case Always => true
    case Greater(category, value) => Rating(part, category) > value
    case Less(category, value) => Rating(part, category) < value
  }

  /** The action of the first rule whose test holds: that rule decides and the later ones
      are never looked at. */
  function FirstMatch(rules: seq<Rule>, part: Part): (r: Option<Action>)
    ensures r.None? <==> forall i :: 0 <= i < |rules| ==> !Holds(part, rules[i].condition)
    ensures r.Some? ==>
      exists i :: 0 <= i < |rules| && Holds(part, rules[i].condition) && r.value == rules[i].action
        && forall j :: 0 <= j < i ==> !Holds(part, rules[j].condition)
  {
    if rules == [] then None
    else if Holds(part, rules[0].condition) then Some(rules[0].action)
    else
      var r := FirstMatch(rules[1..], part);
      assert forall i :: 1 <= i < |rules| ==> rules[i] == rules[1..][i - 1];
      if r.Some? then
        var k :| 0 <= k < |rules[1..]| && Holds(part, rules[1..][k].condition)
          && r.value == rules[1..][k].action && forall j :: 0 <= j < k ==> !Holds(part, rules[1..][j].condition);
        assert forall j :: 1 <= j < k + 1 ==> rules[j] == rules[1..][j - 1];
        r
      else r
  }

  /** The rule at `i` decides when its test holds and no earlier test does. */
  lemma FirstMatchAt(rules: seq<Rule>, part: Part, i: nat)
    requires i < |rules| && Holds(part, rules[i].condition)
    requires forall j :: 0 <= j < i ==> !Holds(part, rules[j].condition)
    ensures FirstMatch(rules, part) == Some(rules[i].action)
  {
    var r := FirstMatch(rules, part);
    var k :| 0 <= k < |rules| && Holds(part, rules[k].condition)
      && r.value == rules[k].action && forall j :: 0 <= j < k ==> !Holds(part, rules[j].condition);
    assert k == i;
  }

  /** What one visit to workflow `id` does with a part. */
  datatype Step = Missing | Done(accepted: bool) | Goto(next: string)

  /** A visit to a missing workflow panics; when no rule's test holds the loop of
      `is_accepted` visits the same workflow again. */
  function Visit(w: Workflows, part: Part, id: string): (r: Step)
    ensures r.Missing? <==> id !in w
    ensures r.Goto? && r.next != id ==> FirstMatch(w[id], part) == Some(NextWorkflow(r.next))
  {
    if id !in w then Missing
    else
      match FirstMatch(w[id], part)
      case None => Goto(id)
      case Some(Accept) => Done(true)
      case Some(Reject) => Done(false)
      case Some(NextWorkflow(next)) => Goto(next)
  }

  datatype Verdict = Accepted | Rejected | Stuck | Unfinished

  /** The outcome of at most `fuel` visits starting at workflow `id`: `Stuck` when a
      workflow is missing and `Unfinished` when the visits run out. */
  function Run(w: Workflows, part: Part, id: string, fuel: nat): Verdict
    decreases fuel
  {
    if fuel == 0 then Unfinished
    else
      match Visit(w, part, id)
      case Missing => Stuck
      case Done(accepted) => if accepted then Accepted else Rejected
      case Goto(next) => Run(w, part, next, fuel - 1)
  }

  /** More visits do not change an outcome that was reached. */
  lemma {:induction false} RunMore(w: Workflows, part: Part, id: string, fuel: nat, more: nat)
    requires fuel <= more && Run(w, part, id, fuel) != Unfinished
    ensures Run(w, part, id, more) == Run(w, part, id, fuel)
    decreases fuel
  {
    if Visit(w, part, id).Goto? {
      RunMore(w, part, Visit(w, part, id).next, fuel - 1, more - 1);
    }
  }

  /** The workflow reached after `k` visits, or the one the visits stopped at. */
  function Trace(w: Workflows, part: Part, id: string, k: nat): string
    decreases k
  {
    if k == 0 then id
    else
      match Visit(w, part, id)
      case Goto(next) => Trace(w, part, next, k - 1)
      case _ => id
  }

  lemma {:induction false} TraceAdd(w: Workflows, part: Part, id: string, i: nat, d: nat)
    ensures Trace(w, part, Trace(w, part, id, i), d) == Trace(w, part, id, i + d)
    decreases i
  {
    if i > 0 {
      match Visit(w, part, id)
      case Goto(next) => TraceAdd(w, part, next, i - 1, d);
      case _ =>
        if d > 0 {
          assert Trace(w, part, id, d) == id;
        }
    }
  }

  /** The first `k` visits from `id` all go on to a workflow. */
  predicate Moving(w: Workflows, part: Part, id: string, k: nat)
  {
    forall j :: 0 <= j < k ==> Visit(w, part, Trace(w, part, id, j)).Goto?
  }

  /** While the visits go on, a run is a run from where they lead. */
  lemma {:induction false} RunShift(w: Workflows, part: Part, id: string, k: nat, fuel: nat)
    requires k <= fuel && Moving(w, part, id, k)
    ensures Run(w, part, id, fuel) == Run(w, part, Trace(w, part, id, k), fuel - k)
    decreases k
  {
    if k > 0 {
      assert Visit(w, part, Trace(w, part, id, 0)).Goto?;
      var next := Visit(w, part, id).next;
      forall j | 0 <= j < k - 1
        ensures Visit(w, part, Trace(w, part, next, j)).Goto?
      {
        assert Visit(w, part, Trace(w, part, id, j + 1)).Goto?;
      }
      RunShift(w, part, next, k - 1, fuel - 1);
    }
  }

  /** A run that has not finished went on at every visit. */
  lemma {:induction false} UnfinishedMoving(w: Workflows, part: Part, id: string, fuel: nat)
    requires Run(w, part, id, fuel) == Unfinished
    ensures Moving(w, part, id, fuel)
    decreases fuel
  {
    if fuel > 0 {
      var next := Visit(w, part, id).next;
      UnfinishedMoving(w, part, next, fuel - 1);
      forall j | 0 <= j < fuel
        ensures Visit(w, part, Trace(w, part, id, j)).Goto?
      {
        if j > 0 {
          assert Trace(w, part, id, j) == Trace(w, part, next, j - 1);
        }
      }
    }
  }

  /** Visits that return to where they began after `d` steps go round forever. */
  lemma {:induction false} Cycle(w: Workflows, part: Part, id: string, d: nat, fuel: nat)
    requires d > 0 && Moving(w, part, id, d) && Trace(w, part, id, d) == id
    ensures Run(w, part, id, fuel) == Unfinished
    decreases fuel
  {
    if fuel < d {
      RunShift(w, part, id, fuel, fuel);
    } else {
      RunShift(w, part, id, d, fuel);
      Cycle(w, part, id, d, fuel - d);
    }
  }

  /** More names than keys to draw them from: two of the names are the same. */
  lemma {:induction false} Pigeonhole(names: seq<string>, keys: set<string>)
    requires |names| > |keys| && forall k :: 0 <= k < |names| ==> names[k] in keys
    ensures exists i, j :: 0 <= i < j < |names| && names[i] == names[j]
    decreases |keys|
  {
    if !exists j :: 1 <= j < |names| && names[j] == names[0] {
      var rest := names[1..];
      forall k | 0 <= k < |rest| ensures rest[k] in keys - {names[0]} {
        assert rest[k] == names[k + 1];
      }
      Pigeonhole(rest, keys - {names[0]});
      var i, j :| 0 <= i < j < |rest| && rest[i] == rest[j];
      assert names[i + 1] == names[j + 1];
    }
  }

  /** After as many visits as there are workflows, plus one, a part that is still going
      has been to some workflow twice. */
  lemma Repeats(w: Workflows, part: Part, id: string)
    requires Run(w, part, id, |w| + 1) == Unfinished
    ensures exists i, j :: 0 <= i < j <= |w| && Trace(w, part, id, i) == Trace(w, part, id, j)
  {
    UnfinishedMoving(w, part, id, |w| + 1);
    var names := seq(|w| + 1, k requires 0 <= k <= |w| => Trace(w, part, id, k));
    forall k | 0 <= k < |names| ensures names[k] in w.Keys {
      assert Visit(w, part, Trace(w, part, id, k)).Goto?;
    }
    Pigeonhole(names, w.Keys);
    var i, j :| 0 <= i < j < |names| && names[i] == names[j];
    assert Trace(w, part, id, i) == Trace(w, part, id, j);
  }

  /** A part that is still going after as many visits as there are workflows, plus one,
      goes on forever: `is_accepted` never returns for it. */
  lemma {:induction false} Endless(w: Workflows, part: Part, id: string, fuel: nat)
    requires Run(w, part, id, |w| + 1) == Unfinished
    ensures Run(w, part, id, fuel) == Unfinished
  {
    Repeats(w, part, id);
    var i, j :| 0 <= i < j <= |w| && Trace(w, part, id, i) == Trace(w, part, id, j);
    UnfinishedMoving(w, part, id, |w| + 1);
    var c := Trace(w, part, id, i);
    TraceAdd(w, part, id, i, j - i);
    forall k | 0 <= k < j - i
      ensures Visit(w, part, Trace(w, part, c, k)).Goto?
    {
      TraceAdd(w, part, id, i, k);
    }
    if fuel <= i {
      RunShift(w, part, id, fuel, fuel);
    } else {
      RunShift(w, part, id, i, fuel);
      Cycle(w, part, c, j - i, fuel - i);
    }
  }

  /** `Part::is_accepted`: the part visits workflows from "in" until a rule accepts or
      rejects it. The answer is the outcome the loop reaches, whatever number of visits it
      takes, and `Unfinished` exactly when the loop of the source never ends. */
  method IsAccepted(w: Workflows, part: Part) returns (v: Verdict)
    ensures v != Unfinished ==> forall fuel :: fuel > |w| ==> Run(w, part, "in", fuel) == v
    ensures v == Unfinished ==> forall fuel :: Run(w, part, "in", fuel) == Unfinished
    ensures v != Unfinished ==> exists fuel :: Run(w, part, "in", fuel) == v
  {
    v := Evaluate(w, part);
    if v == Unfinished {
      forall fuel ensures Run(w, part, "in", fuel) == Unfinished {
        Endless(w, part, "in", fuel);
      }
    } else {
      forall fuel | fuel > |w| ensures Run(w, part, "in", fuel) == v {
        RunMore(w, part, "in", |w| + 1, fuel);
      }
    }
  }

  /** The loops of `is_accepted`, cut off after one visit more than there are workflows. */
  method Evaluate(w: Workflows, part: Part) returns (v: Verdict)
    ensures v == Run(w, part, "in", |w| + 1)
  {
    var id := "in";
    var visits := 0;
    while visits <= |w|
      invariant visits <= |w| + 1
      invariant Run(w, part, id, |w| + 1 - visits) == Run(w, part, "in", |w| + 1)
    {
      if id !in w {
        return Stuck;
      }
      var rules := w[id];
      var next := id;
      var i := 0;
      while i < |rules|
        invariant i <= |rules|
        invariant forall j :: 0 <= j < i ==> !Holds(part, rules[j].condition)
      {
        if Holds(part, rules[i].condition) {
          FirstMatchAt(rules, part, i);
          match rules[i].action
          case Accept => return Accepted;
          case Reject => return Rejected;
          case NextWorkflow(n) =>
            next := n;
            break;
        }
        i := i + 1;
      }
      id := next;
      visits := visits + 1;
    }
    return Unfinished;
  }

  /** The text of the input the parsers read back. */
  function CategoryChar(category: Category): char
  {
    match category
    case X => 'x'
    case M => 'm'
    case A => 'a'
    case S => 's'
  }

  function ActionText(action: Action): string
  {
    match action
    case Accept => "A"
    case Reject => "R"
    case NextWorkflow(id) => id
  }

  function RuleText(rule: Rule): string
  {
    match rule.condition
    case Always => ActionText(rule.action)
    case Greater(category, value) => [CategoryChar(category), '>'] + NatToString(value) + ":" + ActionText(rule.action)
    case Less(category, value) => [CategoryChar(category), '<'] + NatToString(value) + ":" + ActionText(rule.action)
  }

  function RuleTexts(rules: seq<Rule>): (texts: seq<string>)
    ensures |texts| == |rules| && forall i :: 0 <= i < |rules| ==> texts[i] == RuleText(rules[i])
  {
    seq(|rules|, i requires 0 <= i < |rules| => RuleText(rules[i]))
  }

  function WorkflowText(workflow: Workflow): string
    requires |workflow.rules| > 0
  {
    workflow.id + "{" + Join(RuleTexts(workflow.rules), ",") + "}"
  }

  /** A workflow name as the input writes it: not empty and free of the separators. */
  predicate Label(s: string)
  {
    |s| > 0 && forall k :: 0 <= k < |s| ==> s[k] !in ",:{}"
  }

  predicate WellFormedRule(rule: Rule)
  {
    (rule.action.NextWorkflow? ==> Label(rule.action.id) && rule.action.id != "A" && rule.action.id != "R")
    && (!rule.condition.Always? ==> rule.condition.value < 0x1_0000)
  }

  predicate WellFormed(workflow: Workflow)
  {
    '{' !in workflow.id && |workflow.rules| > 0
    && forall i :: 0 <= i < |workflow.rules| ==> WellFormedRule(workflow.rules[i])
  }

  /** The text of a tested rule: its test, then ':' and its action. */
  lemma ParseTestedRule(test: string, value: nat, action: string)
    requires |test| >= 2 && test[..2] != [] && test[0] in "xmas" && test[1] in "<>"
    requires test[2..] == NatToString(value) && value < 0x1_0000
    ensures ':' !in test
    ensures ParseRule(test + ":" + action) == Some(Rule(ParseCondition(test[..2], value).value, ParseAction(action)))
  {
    assert forall k :: 2 <= k < |test| ==> test[k] == test[2..][k - 2];
    SplitOnceOfJoined(test, ":", action);
    ParseNatOfNatToString(value);
  }

  lemma ParseCategoryOfChar(category: Category)
    ensures ParseCategory(CategoryChar(category)) == Some(category)
  {
  }

  /** A rule written out reads back as itself. */
  lemma ParseRuleOfText(rule: Rule)
    requires WellFormedRule(rule)
    ensures ParseRule(RuleText(rule)) == Some(rule)
  {
    var action := ActionText(rule.action);
    assert ParseAction(action) == rule.action;
    if !rule.condition.Always? {
      var c := rule.condition;
      var op := if c.Greater? then '>' else '<';
      var test := [CategoryChar(c.category), op] + NatToString(c.value);
      assert RuleText(rule) == test + ":" + action;
      assert test[..2] == [CategoryChar(c.category), op] && test[2..] == NatToString(c.value);
      ParseCategoryOfChar(c.category);
      assert ParseCondition(test[..2], c.value) == Some(c);
      ParseTestedRule(test, c.value, action);
    }
  }

  /** The last character of joined parts is the last part's last character. */
  lemma {:induction false} JoinLast(parts: seq<string>, sep: string)
    requires |parts| > 0 && |parts[|parts| - 1]| > 0
    ensures |Join(parts, sep)| > 0
    ensures Join(parts, sep)[|Join(parts, sep)| - 1] == parts[|parts| - 1][|parts[|parts| - 1]| - 1]
    decreases |parts|
  {
    if |parts| > 1 {
      assert parts[1..][|parts[1..]| - 1] == parts[|parts| - 1];
      JoinLast(parts[1..], sep);
    }
  }

  /** Only the one closing brace goes when the text before it does not end in one. */
  lemma TrimClosing(s: string, c: char)
    requires s != [] && s[|s| - 1] != c
    ensures TrimEndChar(s + [c], c) == s
  {
    assert (s + [c])[..|s|] == s;
  }

  /** A written rule holds no ',', is not empty and does not end in '}'. */
  lemma RuleTextShape(rule: Rule)
    requires WellFormedRule(rule)
    ensures ',' !in RuleText(rule) && |RuleText(rule)| > 0
    ensures RuleText(rule)[|RuleText(rule)| - 1] != '}'
  {
    var action := ActionText(rule.action);
    assert ',' !in action && |action| > 0 && action[|action| - 1] != '}';
    if !rule.condition.Always? {
      var digits := NatToString(rule.condition.value);
      assert ',' !in digits by {
        assert forall k :: 0 <= k < |digits| ==> IsDigit(digits[k]);
      }
      var test := [CategoryChar(rule.condition.category), if rule.condition.Greater? then '>' else '<'];
      assert RuleText(rule) == test + digits + ":" + action;
      assert RuleText(rule)[|RuleText(rule)| - 1] == action[|action| - 1];
    }
  }

  /** The rules of a workflow written out read back as its rules. */
  lemma ParseRulesOfText(rules: seq<Rule>)
    requires forall i :: 0 <= i < |rules| ==> WellFormedRule(rules[i])
    ensures ParseEach(RuleTexts(rules), ParseRule) == Some(rules)
  {
    var texts := RuleTexts(rules);
    forall i | 0 <= i < |texts| ensures ParseRule(texts[i]) == Some(rules[i]) {
      ParseRuleOfText(rules[i]);
    }
    assert ParseEach(texts, ParseRule).value == rules;
  }

  /** Only the one opening brace goes when the text after it does not start with one. */
  lemma TrimOpening(s: string, c: char)
    requires s != [] && s[0] != c
    ensures TrimStartChar([c] + s, c) == s
  {
    assert ([c] + s)[1..] == s;
  }

  /** A workflow written out reads back as itself. */
  lemma ParseWorkflowOfText(workflow: Workflow)
    requires WellFormed(workflow)
    ensures ParseWorkflow(WorkflowText(workflow)) == Some(workflow)
  {
    var texts := RuleTexts(workflow.rules);
    var body := Join(texts, ",");
    forall i | 0 <= i < |texts| ensures ',' !in texts[i] && |texts[i]| > 0 {
      RuleTextShape(workflow.rules[i]);
    }
    RuleTextShape(workflow.rules[|texts| - 1]);
    JoinLast(texts, ",");
    var head := workflow.id + "{" + body;
    assert WorkflowText(workflow) == head + "}";
    TrimClosing(head, '}');
    SplitOnceOfJoined(workflow.id, "{", body);
    SplitOfJoin(texts, ",");
    ParseRulesOfText(workflow.rules);
  }

  function RatingText(name: char, value: nat): string
  {
    [name] + "=" + NatToString(value)
  }

  function RatingTexts(part: Part): seq<string>
  {
    [RatingText('x', part.x), RatingText('m', part.m), RatingText('a', part.a), RatingText('s', part.s)]
  }

  function PartText(part: Part): string
  {
    "{" + Join(RatingTexts(part), ",") + "}"
  }

  /** A rating written out reads back as its value, holds no ',' and ends in a digit. */
  lemma ParseRatingOfText(name: char, value: nat)
    requires name != '=' && name != ',' && value < 0x1_0000
    ensures ParseRating(RatingText(name, value)) == Some(value)
    ensures ',' !in RatingText(name, value) && RatingText(name, value)[0] == name
    ensures IsDigit(RatingText(name, value)[|RatingText(name, value)| - 1])
  {
    var digits := NatToString(value);
    assert ',' !in digits by {
      assert forall k :: 0 <= k < |digits| ==> IsDigit(digits[k]);
    }
    assert ([name] + "=" + digits)[|digits| + 1] == digits[|digits| - 1];
    SplitOnceOfJoined([name], "=", digits);
    ParseNatOfNatToString(value);
  }

  /** Four ratings between braces, read by position. */
  lemma ParsePartOfRatings(texts: seq<string>, part: Part)
    requires |texts| == 4 && forall i :: 0 <= i < 4 ==> ',' !in texts[i] && |texts[i]| > 0
    requires texts[0][0] != '{' && texts[3][|texts[3]| - 1] != '}'
    requires ParseRating(texts[0]) == Some(part.x) && ParseRating(texts[1]) == Some(part.m)
    requires ParseRating(texts[2]) == Some(part.a) && ParseRating(texts[3]) == Some(part.s)
    ensures ParsePart("{" + Join(texts, ",") + "}") == Some(part)
  {
    var body := Join(texts, ",");
    JoinLast(texts, ",");
    assert body[0] == texts[0][0];
    var line := "{" + Join(texts, ",") + "}";
    assert line == "{" + (body + "}");
    TrimOpening(body + "}", '{');
    TrimClosing(body, '}');
    SplitOfJoin(texts, ",");
    assert Split(TrimEndChar(TrimStartChar(line, '{'), '}'), ",") == texts;
  }

  /** The ratings of a part written out, in the shape `ParsePartOfRatings` reads. */
  lemma RatingTextsShape(part: Part)
    requires part.x < 0x1_0000 && part.m < 0x1_0000 && part.a < 0x1_0000 && part.s < 0x1_0000
    ensures var texts := RatingTexts(part);
      && (forall i :: 0 <= i < 4 ==> ',' !in texts[i] && |texts[i]| > 0)
      && texts[0][0] != '{' && texts[3][|texts[3]| - 1] != '}'
      && ParseRating(texts[0]) == Some(part.x) && ParseRating(texts[1]) == Some(part.m)
      && ParseRating(texts[2]) == Some(part.a) && ParseRating(texts[3]) == Some(part.s)
  {
    ParseRatingOfText('x', part.x);
    ParseRatingOfText('m', part.m);
    ParseRatingOfText('a', part.a);
    ParseRatingOfText('s', part.s);
    var texts := RatingTexts(part);
    forall i | 0 <= i < 4 ensures ',' !in texts[i] && |texts[i]| > 0 {
      assert i == 0 || i == 1 || i == 2 || i == 3;
    }
  }

  /** A part written out reads back as itself when its ratings are `u16`s. */
  lemma ParsePartOfText(part: Part)
    requires part.x < 0x1_0000 && part.m < 0x1_0000 && part.a < 0x1_0000 && part.s < 0x1_0000
    ensures ParsePart(PartText(part)) == Some(part)
  {
    RatingTextsShape(part);
    ParsePartOfRatings(RatingTexts(part), part);
  }

  /** `Part::ratings_total`. */
  function RatingsTotal(part: Part): nat
  {
    part.x + part.m + part.a + part.s
  }

  /** The sum of the ratings of the accepted parts; none when some part gets stuck or
      never finishes. */
  function Total(w: Workflows, parts: seq<Part>): Option<nat>
  {
    if parts == [] then Some(0)
    else
      match Total(w, parts[..|parts| - 1])
      case None => None
      case Some(t) =>
        match Run(w, parts[|parts| - 1], "in", |w| + 1)
        case Accepted => Some(t + RatingsTotal(parts[|parts| - 1]))
        case Rejected => Some(t)
        case _ => None
  }

  /** The workflows and the parts of a puzzle input, which a blank line separates. */
  function Puzzle(input: string): Option<(Workflows, seq<Part>)>
  {
    match SplitOnce(input, "\n\n")
    case None => None
    case Some((workflows, parts)) =>
      match (ParseEach(Lines(workflows), ParseWorkflow), ParseEach(Lines(parts), ParsePart))
      case (Some(ws), Some(ps)) => Some((Index(ws), ps))
      case _ => None
  }

  /** `solve`: the ratings of the accepted parts, summed; none when the input panics or a
      part's visits never end. */
  method Solve(input: string) returns (r: Option<nat>)
    ensures Puzzle(input).None? ==> r.None?
    ensures Puzzle(input).Some? ==> r == Total(Puzzle(input).value.0, Puzzle(input).value.1)
  {
    var puzzle := Puzzle(input);
    if puzzle.None? {
      return None;
    }
    r := SumAccepted(puzzle.value.0, puzzle.value.1);
  }

  /** The filter, map and sum of `solve` over the parsed parts. */
  method SumAccepted(w: Workflows, parts: seq<Part>) returns (r: Option<nat>)
    ensures r == Total(w, parts)
  {
    var total := 0;
    var i := 0;
    while i < |parts|
      invariant i <= |parts|
      invariant Total(w, parts[..i]) == Some(total)
    {
      TotalSnoc(w, parts, i);
      var v := IsAccepted(w, parts[i]);
      assert Run(w, parts[i], "in", |w| + 1) == v;
      if v == Accepted {
        total := total + RatingsTotal(parts[i]);
      } else if v != Rejected {
        assert Total(w, parts[..i + 1]) == None;
        Unsettled(w, parts, i + 1);
        return None;
      }
      i := i + 1;
    }
    assert parts[..i] == parts;
    return Some(total);
  }

  /** One more part: its verdict decides how the total of the prefix grows. */
  lemma TotalSnoc(w: Workflows, parts: seq<Part>, i: nat)
    requires i < |parts|
    ensures Total(w, parts[..i + 1]) ==
      match Total(w, parts[..i])
      case None => None
      case Some(t) =>
        match Run(w, parts[i], "in", |w| + 1)
        case Accepted => Some(t + RatingsTotal(parts[i]))
        case Rejected => Some(t)
        case _ => None
  {
    assert parts[..i + 1][..i] == parts[..i];
  }

  /** A prefix that gets stuck or never ends leaves the whole without an answer. */
  lemma {:induction false} Unsettled(w: Workflows, parts: seq<Part>, n: nat)
    requires n <= |parts| && Total(w, parts[..n]) == None
    ensures Total(w, parts) == None
    decreases |parts| - n
  {
    if n < |parts| {
      assert parts[..n + 1][..n] == parts[..n];
      Unsettled(w, parts, n + 1);
    } else {
      assert parts[..n] == parts;
    }
  }
}
