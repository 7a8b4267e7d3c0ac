/** Day 20, part 1: pulse propagation. A button sends a low pulse to the broadcaster, which
    forwards every pulse to its destinations; a flip-flop ignores high pulses and flips on a
    low one, sending its new state; a conjunction remembers the last level from each of its
    senders and sends low only when all of them were high. Pulses are handled in the order
    they are sent. The answer is the number of low pulses times the number of high pulses
    over 1000 presses. */
module Day20Part1 {
  import opened Text

  /** What a module does with a pulse, and what it remembers. */
  datatype Kind = Broadcaster | FlipFlop(on: bool) | Conjunction(inputs: map<string, bool>)

  datatype Module = Module(name: string, kind: Kind, destinations: seq<string>)

  datatype Pulse = Pulse(high: bool, source: string, destination: string)

  /** The pulse a button press starts with. */
  const ButtonPulse := Pulse(false, "button", "broadcaster")

  /** `Module::parse`: "name -> a, b", where a name starting with '%' is a flip-flop, one
      starting with '&' a conjunction with no memory yet, and "broadcaster" the broadcaster;
      anything else has no meaning (the source panics). */
  function ParseModule(line: string): (r: Option<Module>)
    ensures r.Some? ==> SplitOnce(line, " -> ").Some?
    ensures r.Some? ==> r.value.destinations == Split(SplitOnce(line, " -> ").value.1, ", ")
    ensures r.Some? && r.value.kind.Broadcaster? ==> r.value.name == "broadcaster"
    ensures r.Some? && r.value.kind.FlipFlop? ==> !r.value.kind.on
    ensures r.Some? && r.value.kind.Conjunction? ==> r.value.kind.inputs == map[]
  {
    match SplitOnce(line, " -> ")
    case None => None
    case Some((name, destinations)) =>
      var destinations := Split(destinations, ", ");
      if |name| > 0 && name[0] == '%' then Some(Module(name[1..], FlipFlop(false), destinations))
      else if |name| > 0 && name[0] == '&' then Some(Module(name[1..], Conjunction(map[]), destinations))
      else if name == "broadcaster" then Some(Module(name, Broadcaster, destinations))
      else None
  }

  /** The line a freshly parsed module is written as. */
  function ModuleText(m: Module): string
    requires |m.destinations| > 0
  {
    var prefix := match m.kind
      case Broadcaster => ""
      case FlipFlop(_) => "%"
      case Conjunction(_) => "&";
    prefix + m.name + " -> " + Join(m.destinations, ", ")
  }

  /** A module as a line describes it: a name without spaces (empty only for the prefixed
      kinds), destinations without commas, and no state yet. */
  predicate Fresh(m: Module)
  {
    && ' ' !in m.name
    && |m.destinations| > 0
    && (forall i :: 0 <= i < |m.destinations| ==> ',' !in m.destinations[i])
    && match m.kind
       case Broadcaster => m.name == "broadcaster"
       case FlipFlop(on) => !on
       case Conjunction(inputs) => inputs == map[]
  }

  /** A name without spaces and destinations without commas come apart as written. */
  lemma ModuleTextParts(name: string, destinations: seq<string>)
    requires ' ' !in name && |destinations| > 0
    requires forall i :: 0 <= i < |destinations| ==> ',' !in destinations[i]
    ensures SplitOnce(name + " -> " + Join(destinations, ", "), " -> ") == Some((name, Join(destinations, ", ")))
    ensures Split(Join(destinations, ", "), ", ") == destinations
  {
    SplitOnceOfJoined(name, " -> ", Join(destinations, ", "));
    SplitOfJoin(destinations, ", ");
  }

  /** Reading a module's line gives back the module. */
  lemma ParseModuleText(m: Module)
    requires Fresh(m)
    ensures ParseModule(ModuleText(m)) == Some(m)
  {
    var rest := Join(m.destinations, ", ");
    match m.kind
    case Broadcaster =>
      assert ModuleText(m) == m.name + " -> " + rest;
      ModuleTextParts(m.name, m.destinations);
      ParseModuleOfSplit(ModuleText(m), m.name, rest);
    case FlipFlop(_) =>
      PrefixedName('%', m.name);
      assert ModuleText(m) == "%" + m.name + " -> " + rest;
      ModuleTextParts("%" + m.name, m.destinations);
      ParseModuleOfSplit(ModuleText(m), "%" + m.name, rest);
    case Conjunction(_) =>
      PrefixedName('&', m.name);
      assert ModuleText(m) == "&" + m.name + " -> " + rest;
      ModuleTextParts("&" + m.name, m.destinations);
      ParseModuleOfSplit(ModuleText(m), "&" + m.name, rest);
  }

  /** What `ParseModule` makes of a line it has split into a name and destinations. */
  lemma ParseModuleOfSplit(line: string, name: string, rest: string)
    requires SplitOnce(line, " -> ") == Some((name, rest))
    ensures ParseModule(line) ==
      if |name| > 0 && name[0] == '%' then Some(Module(name[1..], FlipFlop(false), Split(rest, ", ")))
      else if |name| > 0 && name[0] == '&' then Some(Module(name[1..], Conjunction(map[]), Split(rest, ", ")))
      else if name == "broadcaster" then Some(Module(name, Broadcaster, Split(rest, ", ")))
      else None
  {
  }

  /** A one-character prefix comes off again and adds no space. */
  lemma PrefixedName(c: char, name: string)
    requires c != ' ' && ' ' !in name
    ensures var s := [c] + name; |s| > 0 && s[0] == c && s[1..] == name && ' ' !in s
  {
  }

  /** The lines of the input, each read as a module; no modules when a line fails. */
  function ParseModules(lines: seq<string>): (r: Option<seq<Module>>)
    ensures r.Some? ==> |r.value| == |lines|
    ensures r.Some? ==> forall i :: 0 <= i < |lines| ==> ParseModule(lines[i]) == Some(r.value[i])
    ensures r.None? ==> exists i :: 0 <= i < |lines| && ParseModule(lines[i]).None?
  {
    if lines == [] then Some([])
    else match ParseModule(lines[0])
      case None => None
      case Some(m) =>
        match ParseModules(lines[1..])
        case None => None
        case Some(rest) => Some([m] + rest)
  }

  /** The names of the modules that send to `name`: the keys of the `sources` table. */
  function Senders(modules: seq<Module>, name: string): set<string>
  {
    set i | 0 <= i < |modules| && name in modules[i].destinations :: modules[i].name
  }

  /** A conjunction gets a memory of false for every module that sends to it; one that no
      module sends to has no entry in `sources` (the source panics on the unwrap). */
  function Wire(all: seq<Module>, m: Module): (r: Option<Module>)
    ensures r.Some? ==> r.value.name == m.name && r.value.destinations == m.destinations
    ensures r.Some? && m.kind.Conjunction? ==>
      r.value.kind == Conjunction(m.kind.inputs + map s | s in Senders(all, m.name) :: false)
    ensures !m.kind.Conjunction? ==> r == Some(m)
    ensures r.None? <==> m.kind.Conjunction? && Senders(all, m.name) == {}
  {
    match m.kind
    case Conjunction(inputs) =>
      if Senders(all, m.name) == {} then None
      else Some(m.(kind := Conjunction(inputs + map s | s in Senders(all, m.name) :: false)))
    case _ => Some(m)
  }

  function WireAll(all: seq<Module>, ms: seq<Module>): (r: Option<seq<Module>>)
    ensures r.Some? ==> |r.value| == |ms|
    ensures r.Some? ==> forall i :: 0 <= i < |ms| ==> Wire(all, ms[i]) == Some(r.value[i])
    ensures r.None? ==> exists i :: 0 <= i < |ms| && Wire(all, ms[i]).None?
  {
    if ms == [] then Some([])
    else match Wire(all, ms[0])
      case None => None
      case Some(m) =>
        match WireAll(all, ms[1..])
        case None => None
        case Some(rest) => Some([m] + rest)
  }

  /** The `collect` into a map by name: a later module of the same name replaces an earlier
      one. */
  function Collect(ms: seq<Module>): (r: map<string, Module>)
    ensures forall i :: 0 <= i < |ms| ==> ms[i].name in r
  {
    if ms == [] then map[]
    else Collect(ms[..|ms| - 1])[ms[|ms| - 1].name := ms[|ms| - 1]]
  }

  /** Each module collected is one of the list, under its own name. */
  lemma {:induction false} CollectFrom(ms: seq<Module>, k: string)
    requires k in Collect(ms)
    ensures exists i :: 0 <= i < |ms| && ms[i].name == k && Collect(ms)[k] == ms[i]
  {
    var last := |ms| - 1;
    if ms[last].name == k {
      assert Collect(ms)[k] == ms[last];
    } else {
      CollectFrom(ms[..last], k);
      var i :| 0 <= i < last && ms[..last][i].name == k && Collect(ms[..last])[k] == ms[..last][i];
      assert ms[i] == ms[..last][i];
    }
  }

  /** `read_input`: the modules of the input by name, each conjunction wired to its
      senders. */
  function ReadInput(input: string): Option<map<string, Module>>
  {
    match ParseModules(Lines(input))
    case None => None
    case Some(ms) =>
      match WireAll(ms, ms)
      case None => None
      case Some(wired) => Some(Collect(wired))
  }

  /** Every module is filed under its own name, and every conjunction remembers each module
      of the network that sends to it. */
  predicate Consistent(modules: map<string, Module>)
  {
    && (forall k :: k in modules ==> modules[k].name == k)
    && (forall k, s :: (k in modules && s in modules && k in modules[s].destinations
          && modules[k].kind.Conjunction?) ==> s in modules[k].kind.inputs)
  }

  /** No conjunction remembers anything yet. */
  predicate Unwired(ms: seq<Module>)
  {
    forall i :: 0 <= i < |ms| && ms[i].kind.Conjunction? ==> ms[i].kind.inputs == map[]
  }

  lemma ParsedUnwired(lines: seq<string>)
    requires ParseModules(lines).Some?
    ensures Unwired(ParseModules(lines).value)
  {
    var ms := ParseModules(lines).value;
    forall i | 0 <= i < |ms| && ms[i].kind.Conjunction? ensures ms[i].kind.inputs == map[] {
      assert ParseModule(lines[i]) == Some(ms[i]);
    }
  }

  /** Wiring and collecting a list of modules gives each conjunction a memory of false for
      exactly the modules of the list that send to it. */
  lemma CollectMemory(ms: seq<Module>, wired: seq<Module>, k: string, s: string)
    requires Unwired(ms) && WireAll(ms, ms) == Some(wired)
    requires k in Collect(wired) && Collect(wired)[k].kind.Conjunction?
    ensures var inputs := Collect(wired)[k].kind.inputs;
      && (s in inputs <==> s in Senders(ms, k))
      && (s in inputs ==> !inputs[s])
  {
    CollectFrom(wired, k);
    var i :| 0 <= i < |wired| && wired[i].name == k && Collect(wired)[k] == wired[i];
    assert Wire(ms, ms[i]) == Some(wired[i]);
    assert ms[i].kind.Conjunction? && ms[i].name == k;
    assert ms[i].kind.inputs == map[];
    var memory := map s | s in Senders(ms, k) :: false;
    assert wired[i].kind.inputs == map[] + memory;
    EmptyUnion(memory);
  }

  lemma EmptyUnion<K, V>(m: map<K, V>)
    ensures map[] + m == m
  {
  }

  /** Collecting wired modules gives a consistent network. */
  lemma CollectConsistent(ms: seq<Module>, wired: seq<Module>)
    requires Unwired(ms) && WireAll(ms, ms) == Some(wired)
    ensures Consistent(Collect(wired))
  {
    var modules := Collect(wired);
    forall k | k in modules ensures modules[k].name == k {
      CollectFrom(wired, k);
    }
    forall k, s | k in modules && s in modules && k in modules[s].destinations
      && modules[k].kind.Conjunction?
      ensures s in modules[k].kind.inputs
    {
      CollectFrom(wired, s);
      var j :| 0 <= j < |wired| && wired[j].name == s && modules[s] == wired[j];
      assert Wire(ms, ms[j]) == Some(wired[j]);
      assert ms[j].name == s && k in ms[j].destinations;
      assert s in Senders(ms, k);
      CollectMemory(ms, wired, k, s);
    }
  }

  /** A conjunction's memory starts false for every module wired to it, and nothing else. */
  lemma ReadInputMemory(input: string, k: string, s: string)
    requires ReadInput(input).Some? && k in ReadInput(input).value
    requires ReadInput(input).value[k].kind.Conjunction?
    ensures var ms := ParseModules(Lines(input)).value;
      var inputs := ReadInput(input).value[k].kind.inputs;
      && (s in inputs <==> s in Senders(ms, k))
      && (s in inputs ==> !inputs[s])
  {
    var ms := ParseModules(Lines(input)).value;
    ParsedUnwired(Lines(input));
    CollectMemory(ms, WireAll(ms, ms).value, k, s);
  }

  /** A network that was read is consistent. */
  lemma ReadInputConsistent(input: string)
    requires ReadInput(input).Some?
    ensures Consistent(ReadInput(input).value)
  {
    var ms := ParseModules(Lines(input)).value;
    ParsedUnwired(Lines(input));
    CollectConsistent(ms, WireAll(ms, ms).value);
  }

  /** The pulses a module sends: one at the given level to each destination, in order. */
  function Send(m: Module, high: bool): (sent: seq<Pulse>)
    ensures |sent| == |m.destinations|
    ensures forall i :: 0 <= i < |sent| ==> sent[i] == Pulse(high, m.name, m.destinations[i])
  {
    seq(|m.destinations|, i requires 0 <= i < |m.destinations| => Pulse(high, m.name, m.destinations[i]))
  }

  /** Every remembered level is high. */
  predicate AllHigh(inputs: map<string, bool>)
  {
    forall s :: s in inputs ==> inputs[s]
  }

  /** Two modules differ at most in their state: same name, kind, destinations and, for a
      conjunction, the same senders remembered. */
  predicate SameShape(a: Module, b: Module)
  {
    && a.name == b.name && a.destinations == b.destinations
    && match a.kind
       case Broadcaster => b.kind.Broadcaster?
       case FlipFlop(_) => b.kind.FlipFlop?
       case Conjunction(inputs) => b.kind.Conjunction? && b.kind.inputs.Keys == inputs.Keys
  }

  /** A pulse reaching a module: the module's new state and the pulses it sends. A
      conjunction that does not know the sender has no meaning (the source panics on the
      unwrap). */
  function Receive(m: Module, pulse: Pulse): (r: Option<(Module, seq<Pulse>)>)
    ensures r.Some? ==> SameShape(m, r.value.0)
    ensures r.None? <==> m.kind.Conjunction? && pulse.source !in m.kind.inputs
  {
    match m.kind
    case Broadcaster => Some((m, Send(m, pulse.high)))
    case Conjunction(inputs) =>
      if pulse.source !in inputs then None
      else
        var inputs := inputs[pulse.source := pulse.high];
        Some((m.(kind := Conjunction(inputs)), Send(m, !AllHigh(inputs))))
    case FlipFlop(on) =>
      if pulse.high then Some((m, []))
      else Some((m.(kind := FlipFlop(!on)), Send(m, !on)))
  }

  /** The broadcaster keeps no state and forwards the level it receives to every
      destination. */
  lemma BroadcasterForwards(m: Module, pulse: Pulse)
    requires m.kind.Broadcaster?
    ensures Receive(m, pulse).Some? && Receive(m, pulse).value.0 == m
    ensures var sent := Receive(m, pulse).value.1;
      |sent| == |m.destinations| && forall i :: 0 <= i < |sent| ==> sent[i].high == pulse.high
  {
  }

  /** A flip-flop ignores a high pulse; a low pulse turns it over and it sends its new
      state. */
  lemma FlipFlopReacts(m: Module, pulse: Pulse)
    requires m.kind.FlipFlop?
    ensures pulse.high ==> Receive(m, pulse) == Some((m, []))
    ensures !pulse.high ==> (Receive(m, pulse).Some?
      && Receive(m, pulse).value.0.kind.on == !m.kind.on
      && Receive(m, pulse).value.1 == Send(m, !m.kind.on))
  {
  }

  /** Two low pulses put a flip-flop back as it was. */
  lemma FlipFlopTwice(m: Module, pulse: Pulse)
    requires m.kind.FlipFlop? && !pulse.high
    ensures Receive(Receive(m, pulse).value.0, pulse).value.0 == m
  {
  }

  /** A conjunction remembers the sender's level and nothing else, and sends low exactly
      when every remembered level is then high. */
  lemma ConjunctionReacts(m: Module, pulse: Pulse)
    requires m.kind.Conjunction? && pulse.source in m.kind.inputs
    ensures var (after, sent) := Receive(m, pulse).value;
      && after.kind.inputs[pulse.source] == pulse.high
      && (forall s :: s in m.kind.inputs && s != pulse.source ==> after.kind.inputs[s] == m.kind.inputs[s])
      && |sent| == |m.destinations|
      && (forall i :: 0 <= i < |sent| ==>
            (!sent[i].high <==> forall s :: s in m.kind.inputs ==> after.kind.inputs[s]))
  {
  }

  /** How a button press ends: the network afterwards and the pulses counted, or a panic,
      or (in the model only) a press that has not settled within the fuel. */
  datatype Outcome = Finished(modules: map<string, Module>, low: nat, high: nat) | Panicked | Exhausted

  /** The `run_cycle` loop from a queue: each pulse is counted, then handled by the module
      it goes to, if there is one; every pulse handled costs one unit of fuel. */
  function Propagate(modules: map<string, Module>, queue: seq<Pulse>, low: nat, high: nat, fuel: nat): (r: Outcome)
    ensures r.Finished? ==> r.low >= low && r.high >= high
    ensures r.Finished? ==> r.low + r.high >= low + high + |queue|
    decreases fuel
  {
    if queue == [] then Finished(modules, low, high)
    else if fuel == 0 then Exhausted
    else
      var pulse := queue[0];
      var low', high' := if pulse.high then low else low + 1, if pulse.high then high + 1 else high;
      if pulse.destination !in modules then Propagate(modules, queue[1..], low', high', fuel - 1)
      else match Receive(modules[pulse.destination], pulse)
        case None => Panicked
        case Some((m, sent)) =>
          Propagate(modules[pulse.destination := m], queue[1..] + sent, low', high', fuel - 1)
  }

  /** One button press. */
  function Cycle(modules: map<string, Module>, fuel: nat): Outcome
  {
    Propagate(modules, [ButtonPulse], 0, 0, fuel)
  }

  /** A press that settles has counted at least the button's low pulse. */
  lemma CycleCountsButton(modules: map<string, Module>, fuel: nat)
    ensures Cycle(modules, fuel).Finished? ==> Cycle(modules, fuel).low >= 1
  {
    var queue := [ButtonPulse];
    if fuel > 0 {
      if ButtonPulse.destination !in modules {
        assert Cycle(modules, fuel) == Propagate(modules, queue[1..], 1, 0, fuel - 1);
      } else if Receive(modules[ButtonPulse.destination], ButtonPulse).Some? {
        var (m, sent) := Receive(modules[ButtonPulse.destination], ButtonPulse).value;
        var next := modules[ButtonPulse.destination := m];
        assert Cycle(modules, fuel) == Propagate(next, queue[1..] + sent, 1, 0, fuel - 1);
      }
    }
  }

  /** The network after some pulses has the same modules as before, changed only in their
      state. */
  predicate Shaped(before: map<string, Module>, after: map<string, Module>)
  {
    && after.Keys == before.Keys
    && forall k :: k in before ==> SameShape(before[k], after[k])
  }

  /** A pulse its destination can take: a conjunction knows its sender. */
  predicate Deliverable(modules: map<string, Module>, pulse: Pulse)
  {
    pulse.destination in modules && modules[pulse.destination].kind.Conjunction? ==>
      pulse.source in modules[pulse.destination].kind.inputs
  }

  /** The button's pulse can be taken unless the broadcaster is a conjunction that does not
      know a module named "button". */
  predicate ButtonDeliverable(modules: map<string, Module>)
  {
    Deliverable(modules, ButtonPulse)
  }

  /** Changing states keeps a network consistent and its pulses deliverable. */
  lemma ShapedKeeps(before: map<string, Module>, after: map<string, Module>, pulse: Pulse)
    requires Shaped(before, after)
    ensures Consistent(before) ==> Consistent(after)
    ensures Deliverable(before, pulse) ==> Deliverable(after, pulse)
  {
    if Consistent(before) {
      forall k, s | k in after && s in after && k in after[s].destinations && after[k].kind.Conjunction?
        ensures s in after[k].kind.inputs
      {
        assert SameShape(before[k], after[k]) && SameShape(before[s], after[s]);
      }
    }
    if pulse.destination in before {
      assert SameShape(before[pulse.destination], after[pulse.destination]);
    }
  }

  /** In a consistent network every pulse a module sends can be taken. */
  lemma SentDeliverable(modules: map<string, Module>, m: Module, high: bool)
    requires Consistent(modules) && m.name in modules && SameShape(modules[m.name], m)
    ensures forall i :: 0 <= i < |Send(m, high)| ==> Deliverable(modules, Send(m, high)[i])
  {
    forall i | 0 <= i < |Send(m, high)| ensures Deliverable(modules, Send(m, high)[i]) {
      var d := m.destinations[i];
      assert d in modules[m.name].destinations;
    }
  }

  /** In a consistent network whose queued pulses can all be taken, handling pulses never
      panics, and the network stays consistent with the same modules. */
  lemma {:induction false} PropagateSafe(modules: map<string, Module>, queue: seq<Pulse>, low: nat, high: nat, fuel: nat)
    requires Consistent(modules)
    requires forall i :: 0 <= i < |queue| ==> Deliverable(modules, queue[i])
    ensures !Propagate(modules, queue, low, high, fuel).Panicked?
    ensures Propagate(modules, queue, low, high, fuel).Finished? ==>
      Shaped(modules, Propagate(modules, queue, low, high, fuel).modules)
      && Consistent(Propagate(modules, queue, low, high, fuel).modules)
    decreases fuel
  {
    if queue != [] && fuel > 0 {
      var pulse := queue[0];
      var low', high' := if pulse.high then low else low + 1, if pulse.high then high + 1 else high;
      if pulse.destination !in modules {
        PropagateSafe(modules, queue[1..], low', high', fuel - 1);
      } else {
        var d := pulse.destination;
        assert Deliverable(modules, pulse);
        var (m, sent) := Receive(modules[d], pulse).value;
        var next := modules[d := m];
        assert Shaped(modules, next);
        var queue' := queue[1..] + sent;
        forall i | 0 <= i < |queue'| ensures Deliverable(next, queue'[i]) {
          ShapedKeeps(modules, next, queue'[i]);
          if i >= |queue| - 1 {
            assert modules[d].name == d;
            SentDeliverable(modules, m, sent[i - (|queue| - 1)].high);
            assert sent[i - (|queue| - 1)] == Send(m, sent[i - (|queue| - 1)].high)[i - (|queue| - 1)];
          } else {
            assert queue'[i] == queue[i + 1];
          }
        }
        ShapedKeeps(modules, next, pulse);
        PropagateSafe(next, queue', low', high', fuel - 1);
        var r := Propagate(next, queue', low', high', fuel - 1);
        if r.Finished? {
          forall k | k in modules ensures SameShape(modules[k], r.modules[k]) {
            assert SameShape(modules[k], next[k]) && SameShape(next[k], r.modules[k]);
          }
        }
      }
    }
  }

  /** The network after a press goes on consistent, with the same modules, and the button's
      pulse can still be taken. */
  lemma CycleSafe(modules: map<string, Module>, fuel: nat)
    requires Consistent(modules) && ButtonDeliverable(modules)
    ensures !Cycle(modules, fuel).Panicked?
    ensures Cycle(modules, fuel).Finished? ==>
      && Shaped(modules, Cycle(modules, fuel).modules)
      && Consistent(Cycle(modules, fuel).modules)
      && ButtonDeliverable(Cycle(modules, fuel).modules)
  {
    PropagateSafe(modules, [ButtonPulse], 0, 0, fuel);
    if Cycle(modules, fuel).Finished? {
      ShapedKeeps(modules, Cycle(modules, fuel).modules, ButtonPulse);
    }
  }

  /** Adds the counts of earlier presses to the outcome of the later ones. */
  function AddCounts(low: nat, high: nat, outcome: Outcome): Outcome
  {
    if outcome.Finished? then Finished(outcome.modules, outcome.low + low, outcome.high + high) else outcome
  }

  /** `n` presses one after the other, each from the network the last one left; the first
      press that panics or does not settle decides the outcome. */
  function Presses(modules: map<string, Module>, n: nat, fuel: nat): Outcome
    decreases n
  {
    if n == 0 then Finished(modules, 0, 0)
    else match Cycle(modules, fuel)
      case Finished(next, low, high) => AddCounts(low, high, Presses(next, n - 1, fuel))
      case other => other
  }

  /** Every settled press has counted its button pulse. */
  lemma {:induction false} PressesCountButton(modules: map<string, Module>, n: nat, fuel: nat)
    ensures Presses(modules, n, fuel).Finished? ==> Presses(modules, n, fuel).low >= n
    decreases n
  {
    if n > 0 {
      CycleCountsButton(modules, fuel);
      if Cycle(modules, fuel).Finished? {
        PressesCountButton(Cycle(modules, fuel).modules, n - 1, fuel);
      }
    }
  }

  /** Presses on a consistent network whose broadcaster takes the button's pulse never
      panic. */
  lemma {:induction false} PressesSafe(modules: map<string, Module>, n: nat, fuel: nat)
    requires Consistent(modules) && ButtonDeliverable(modules)
    ensures !Presses(modules, n, fuel).Panicked?
    decreases n
  {
    if n > 0 {
      CycleSafe(modules, fuel);
      if Cycle(modules, fuel).Finished? {
        PressesSafe(Cycle(modules, fuel).modules, n - 1, fuel);
      }
    }
  }

  /** What `solve` gives: the product of the counts, a panic, or (in the model only) a
      press that did not settle within the fuel. */
  datatype Answer = Product(n: int) | Panic | Unsettled

  function Solution(input: string, fuel: nat): Answer
  {
    match ReadInput(input)
    case None => Panic
    case Some(modules) =>
      match Presses(modules, 1000, fuel)
      case Finished(_, low, high) => Product(low * high)
      case Panicked => Panic
      case Exhausted => Unsettled
  }

  /** A network that was read and whose broadcaster takes the button's pulse never panics,
      and its answer multiplies at least 1000 low pulses by the high ones. */
  lemma SolutionSafe(input: string, fuel: nat)
    requires ReadInput(input).Some? && ButtonDeliverable(ReadInput(input).value)
    ensures Solution(input, fuel) != Panic
    ensures Solution(input, fuel).Product? ==>
      var totals := Presses(ReadInput(input).value, 1000, fuel);
      Solution(input, fuel).n == totals.low * totals.high && totals.low >= 1000
  {
    ReadInputConsistent(input);
    PressesSafe(ReadInput(input).value, 1000, fuel);
    PressesCountButton(ReadInput(input).value, 1000, fuel);
  }

  /** Queues the pulses a module sends, one destination at a time. */
  method Emit(queue: seq<Pulse>, m: Module, high: bool) returns (q: seq<Pulse>)
    ensures q == queue + Send(m, high)
  {
    q := queue;
    for i := 0 to |m.destinations|
      invariant q == queue + Send(m, high)[..i]
    {
      assert Send(m, high)[..i + 1] == Send(m, high)[..i] + [Pulse(high, m.name, m.destinations[i])];
      q := q + [Pulse(high, m.name, m.destinations[i])];
    }
    assert Send(m, high)[..|m.destinations|] == Send(m, high);
  }

  /** The `match` in `run_cycle`: the module a pulse goes to takes it, updating its state in
      the network and queueing what it sends; `ok` is false where the source panics. */
  method Deliver(modules: map<string, Module>, queue: seq<Pulse>, pulse: Pulse)
    returns (ok: bool, next: map<string, Module>, queued: seq<Pulse>)
    requires pulse.destination in modules
    ensures ok <==> Receive(modules[pulse.destination], pulse).Some?
    ensures ok ==> next == modules[pulse.destination := Receive(modules[pulse.destination], pulse).value.0]
    ensures ok ==> queued == queue + Receive(modules[pulse.destination], pulse).value.1
  {
    next, queued := modules, queue;
    var m := modules[pulse.destination];
    match m.kind {
      case Broadcaster =>
        queued := Emit(queue, m, pulse.high);
        assert modules[pulse.destination := m] == modules;
      case Conjunction(inputs) =>
        if pulse.source !in inputs {
          return false, next, queued;
        }
        var remembered := inputs[pulse.source := pulse.high];
        var isHigh := !AllHigh(remembered);
        m := m.(kind := Conjunction(remembered));
        next := modules[pulse.destination := m];
        queued := Emit(queue, m, isHigh);
      case FlipFlop(on) =>
        if !pulse.high {
          m := m.(kind := FlipFlop(!on));
          next := modules[pulse.destination := m];
          queued := Emit(queue, m, !on);
        } else {
          assert modules[pulse.destination := m] == modules;
          assert queue + [] == queue;
        }
    }
    ok := true;
  }

  /** `run_cycle`: one button press, handling queued pulses in order until none is left. */
  method RunCycle(modules: map<string, Module>, fuel: nat) returns (r: Outcome)
    ensures r == Cycle(modules, fuel)
  {
    var current := modules;
    var low, high := 0, 0;
    var queue := [ButtonPulse];
    var steps := 0;
    while queue != [] && steps < fuel
      invariant steps <= fuel
      invariant Propagate(current, queue, low, high, fuel - steps) == Cycle(modules, fuel)
      decreases fuel - steps
    {
      var pulse := queue[0];
      queue := queue[1..];
      if pulse.high {
        high := high + 1;
      } else {
        low := low + 1;
      }
      if pulse.destination in current {
        var ok;
        ok, current, queue := Deliver(current, queue, pulse);
        if !ok {
          return Panicked;
        }
      }
      steps := steps + 1;
    }
    if queue == [] {
      r := Finished(current, low, high);
    } else {
      r := Exhausted;
    }
  }

  /** The presses in `solve`: `n` cycles, adding up the low and the high pulses. */
  method PressAll(modules: map<string, Module>, n: nat, fuel: nat) returns (r: Outcome)
    ensures r == Presses(modules, n, fuel)
  {
    var current := modules;
    var lowTotal, highTotal := 0, 0;
    for i := 0 to n
      invariant AddCounts(lowTotal, highTotal, Presses(current, n - i, fuel)) == Presses(modules, n, fuel)
    {
      var cycle := RunCycle(current, fuel);
      match cycle {
        case Panicked => return Panicked;
        case Exhausted => return Exhausted;
        case Finished(next, low, high) =>
          lowTotal := lowTotal + low;
          highTotal := highTotal + high;
          current := next;
      }
    }
    r := Finished(current, lowTotal, highTotal);
  }

  /** `solve`: 1000 presses, then the product of the low and the high totals. */
  method Solve(input: string, fuel: nat) returns (r: Answer)
    ensures r == Solution(input, fuel)
  {
    var read := ReadInput(input);
    if read.None? {
      return Panic;
    }
    var totals := PressAll(read.value, 1000, fuel);
    match totals {
      case Finished(_, low, high) => r := Product(low * high);
      case Panicked => r := Panic;
      case Exhausted => r := Unsettled;
    }
  }
}
