/** Day 15, part 2: the HASHMAP procedure. 256 boxes hold lenses in slots; a step
    `label-` takes the lens with that label out of box `Hash(label)`, and a step
    `label=f` replaces the focal length of the lens with that label in that box, or puts a
    new lens at the back of the box. The answer is the total focusing power. */
module Day15Part2 {
  import opened Text
  import opened Day15Part1

  /** A lens in a slot: its label and its focal length. */
  datatype Lens = Lens(name: string, focal: nat)

  /** One step of the initialization sequence. */
  datatype Step = Remove(name: string) | Put(name: string, focal: nat)

  /** `strip_suffix('-')`, else `split_once('=')` and `parse::<u8>()`: a step that is
      neither form, or whose focal length is no byte value, has no meaning (the source
      unwraps and panics). */
  function ParseStep(s: string): (r: Option<Step>)
    ensures |s| > 0 && s[|s| - 1] == '-' ==> r == Some(Remove(s[..|s| - 1]))
    ensures r.Some? && r.value.Put? ==> r.value.focal < 256 && SplitOnce(s, "=").Some?
  {
    if |s| > 0 && s[|s| - 1] == '-' then Some(Remove(s[..|s| - 1]))
    else match SplitOnce(s, "=")
      case None => None
      case Some((name, focal)) =>
        match ParseNat(focal)
        case Some(f) => if f < 256 then Some(Put(name, f)) else None
        case None => None
  }

  /** The text of a step. */
  function Format(step: Step): string
  {
    match step
    case Remove(name) => name + "-"
    case Put(name, f) => name + "=" + NatToString(f)
  }

  /** Parsing a step gives back the step it was written from, for labels without `=`. */
  lemma ParseFormat(step: Step)
    requires '=' !in step.name
    requires step.Put? ==> step.focal < 256
    ensures ParseStep(Format(step)) == Some(step)
  {
    match step
    case Remove(name) =>
      assert (name + "-")[..|name|] == name;
    case Put(name, f) =>
      var digits := NatToString(f);
      assert Format(step)[|Format(step)| - 1] == digits[|digits| - 1];
      SplitOnceOfJoined(name, "=", digits);
      ParseNatOfNatToString(f);
  }

  /** Every step of the input, or none if one cannot be read. */
  function ParseSteps(parts: seq<string>): (r: Option<seq<Step>>)
    ensures r.Some? <==> forall i :: 0 <= i < |parts| ==> ParseStep(parts[i]).Some?
    ensures r.Some? ==> |r.value| == |parts|
    ensures r.Some? ==> forall i :: 0 <= i < |parts| ==> ParseStep(parts[i]) == Some(r.value[i])
  {
    if parts == [] then Some([])
    else match (ParseStep(parts[0]), ParseSteps(parts[1..]))
      case (Some(s), Some(rest)) => Some([s] + rest)
      case _ =>
        assert forall i :: 1 <= i < |parts| ==> parts[i] == parts[1..][i - 1];
        None
  }

  /** No two lenses of a box share a label. */
  predicate Unique(box: seq<Lens>)
  {
    forall i, j :: 0 <= i < j < |box| ==> box[i].name != box[j].name
  }

  /** `iter().find(|(l, _)| *l == label)`: the first slot holding a lens with that label. */
  function Find(box: seq<Lens>, name: string): (r: Option<nat>)
    ensures r.Some? ==> r.value < |box| && box[r.value].name == name
    ensures r.Some? ==> forall j :: 0 <= j < r.value ==> box[j].name != name
    ensures r.None? <==> forall j :: 0 <= j < |box| ==> box[j].name != name
  {
    if box == [] then None
    else if box[0].name == name then Some(0)
    else match Find(box[1..], name)
      case None => None
      case Some(k) => Some(k + 1)
  }

  /** `retain(|(l, _)| *l != label)`: the box without the lens labelled `label`, the
      other lenses keeping their order. */
  function Take(box: seq<Lens>, name: string): (r: seq<Lens>)
    ensures |r| <= |box|
    ensures forall x :: x in r <==> x in box && x.name != name
  {
    if box == [] then []
    else if box[0].name == name then Take(box[1..], name)
    else [box[0]] + Take(box[1..], name)
  }

  /** A box without the label is left as it is. */
  lemma {:induction false} TakeAbsent(box: seq<Lens>, name: string)
    requires forall j :: 0 <= j < |box| ==> box[j].name != name
    ensures Take(box, name) == box
  {
    if box != [] {
      TakeAbsent(box[1..], name);
    }
  }

  /** Taking a lens out keeps the labels apart. */
  lemma {:induction false} TakeUnique(box: seq<Lens>, name: string)
    requires Unique(box)
    ensures Unique(Take(box, name))
  {
    if box != [] {
      TakeUnique(box[1..], name);
      var rest := Take(box[1..], name);
      if box[0].name != name {
        forall j | 0 <= j < |rest| ensures rest[j].name != box[0].name {
          assert rest[j] in box[1..];
        }
      }
    }
  }

  /** The `iter_mut().find` branch and the `push`: the lens with the label gets the focal
      length `f` in its slot, or a new lens goes to the back; no other slot changes. */
  function Place(box: seq<Lens>, name: string, f: nat): (r: seq<Lens>)
    ensures Find(box, name).Some? ==> |r| == |box| && r[Find(box, name).value] == Lens(name, f)
    ensures Find(box, name).None? ==> |r| == |box| + 1 && r[|box|] == Lens(name, f)
    ensures forall j :: 0 <= j < |box| && box[j].name != name ==> r[j] == box[j]
  {
    match Find(box, name)
    case Some(i) => box[i := Lens(name, f)]
    case None => box + [Lens(name, f)]
  }

  /** Placing a lens keeps the labels apart, and leaves exactly one lens with its label,
      of the new focal length. */
  lemma PlaceUnique(box: seq<Lens>, name: string, f: nat)
    requires Unique(box)
    ensures Unique(Place(box, name, f))
    ensures forall j :: 0 <= j < |Place(box, name, f)| ==>
      (Place(box, name, f)[j].name == name <==> Place(box, name, f)[j] == Lens(name, f))
  {
  }

  /** The 256 empty boxes. */
  function Empty(): (boxes: seq<seq<Lens>>)
    ensures |boxes| == 256 && forall k :: 0 <= k < 256 ==> boxes[k] == []
  {
    seq(256, k => [])
  }

  /** One step applied to the boxes: only box `Hash(label)` changes. */
  function Apply(boxes: seq<seq<Lens>>, step: Step): (r: seq<seq<Lens>>)
    requires |boxes| == 256
    ensures |r| == 256
    ensures forall k :: 0 <= k < 256 && k != Hash(step.name) ==> r[k] == boxes[k]
  {
    var k := Hash(step.name);
    match step
    case Remove(name) => boxes[k := Take(boxes[k], name)]
    case Put(name, f) => boxes[k := Place(boxes[k], name, f)]
  }

  /** The boxes after the steps, applied first to last. */
  function Arrange(steps: seq<Step>): (r: seq<seq<Lens>>)
    ensures |r| == 256
  {
    if steps == [] then Empty() else Apply(Arrange(steps[..|steps| - 1]), steps[|steps| - 1])
  }

  /** Every lens sits in the box its label hashes to, and no box holds a label twice. */
  predicate Placed(boxes: seq<seq<Lens>>)
  {
    |boxes| == 256 &&
    (forall k, i :: 0 <= k < 256 && 0 <= i < |boxes[k]| ==> Hash(boxes[k][i].name) == k) &&
    forall k :: 0 <= k < 256 ==> Unique(boxes[k])
  }

  lemma ApplyPlaced(boxes: seq<seq<Lens>>, step: Step)
    requires Placed(boxes)
    ensures Placed(Apply(boxes, step))
  {
    var k := Hash(step.name);
    var r: seq<seq<Lens>> := Apply(boxes, step);
    match step
    case Remove(name) =>
      TakeUnique(boxes[k], name);
      forall i | 0 <= i < |r[k]| ensures Hash(r[k][i].name) == k {
        assert r[k][i] in boxes[k];
      }
    case Put(name, f) =>
      PlaceUnique(boxes[k], name, f);
  }

  /** The procedure keeps every lens in its own box, with labels apart. */
  lemma {:induction false} ArrangePlaced(steps: seq<Step>)
    ensures Placed(Arrange(steps))
  {
    if steps != [] {
      ArrangePlaced(steps[..|steps| - 1]);
      ApplyPlaced(Arrange(steps[..|steps| - 1]), steps[|steps| - 1]);
    }
  }

  /** After `label-`, no box holds a lens with that label. */
  lemma RemoveClears(boxes: seq<seq<Lens>>, name: string)
    requires Placed(boxes)
    ensures forall k, i :: 0 <= k < 256 && 0 <= i < |Apply(boxes, Remove(name))[k]| ==>
      Apply(boxes, Remove(name))[k][i].name != name
  {
    var r: seq<seq<Lens>> := Apply(boxes, Remove(name));
    forall k, i | 0 <= k < 256 && 0 <= i < |r[k]| ensures r[k][i].name != name {
      if k != Hash(name) {
        assert Hash(boxes[k][i].name) == k;
      } else {
        assert r[k][i] in r[k];
      }
    }
  }

  /** After `label=f`, box `Hash(label)` holds exactly one lens with that label, of focal
      length `f`. */
  lemma PutSets(boxes: seq<seq<Lens>>, name: string, f: nat)
    requires Placed(boxes)
    ensures exists i ::
      0 <= i < |Apply(boxes, Put(name, f))[Hash(name)]| && Apply(boxes, Put(name, f))[Hash(name)][i] == Lens(name, f)
    ensures Unique(Apply(boxes, Put(name, f))[Hash(name)])
  {
    var k := Hash(name);
    PlaceUnique(boxes[k], name, f);
    var r: seq<seq<Lens>> := Apply(boxes, Put(name, f));
    match Find(boxes[k], name)
    case Some(i) => assert r[k][i] == Lens(name, f);
    case None => assert r[k][|boxes[k]|] == Lens(name, f);
  }

  /** The slots of a box from slot number `n` on: each lens weighs its slot number times
      its focal length. */
  function SlotsPower(box: seq<Lens>, n: nat): nat
  {
    if box == [] then 0 else n * box[0].focal + SlotsPower(box[1..], n + 1)
  }

  /** A lens put at the back of a box adds its slot number times its focal length. */
  lemma {:induction false} SlotsPowerAppend(box: seq<Lens>, n: nat, x: Lens)
    ensures SlotsPower(box + [x], n) == SlotsPower(box, n) + (n + |box|) * x.focal
    decreases |box|
  {
    if box != [] {
      assert (box + [x])[1..] == box[1..] + [x];
      SlotsPowerAppend(box[1..], n + 1, x);
    }
  }

  /** A new focal length in slot `i` changes that slot's weight only. */
  lemma {:induction false} SlotsPowerUpdate(box: seq<Lens>, n: nat, i: nat, x: Lens)
    requires i < |box|
    ensures SlotsPower(box[i := x], n) + (n + i) * box[i].focal == SlotsPower(box, n) + (n + i) * x.focal
    decreases |box|
  {
    if i > 0 {
      assert box[i := x][1..] == box[1..][i - 1 := x];
      SlotsPowerUpdate(box[1..], n + 1, i - 1, x);
    } else {
      assert box[i := x][1..] == box[1..];
    }
  }

  /** The boxes from box number `n` on: each box weighs its number times its slots. */
  function BoxesPower(boxes: seq<seq<Lens>>, n: nat): nat
  {
    if boxes == [] then 0 else n * SlotsPower(boxes[0], 1) + BoxesPower(boxes[1..], n + 1)
  }

  /** The focusing power: box `k` weighs `k + 1`, slot `j` weighs `j + 1`. */
  function FocusingPower(boxes: seq<seq<Lens>>): nat
  {
    BoxesPower(boxes, 1)
  }

  lemma {:induction false} BoxesPowerOfEmpty(boxes: seq<seq<Lens>>, n: nat)
    requires forall k :: 0 <= k < |boxes| ==> boxes[k] == []
    ensures BoxesPower(boxes, n) == 0
    decreases |boxes|
  {
    if boxes != [] {
      BoxesPowerOfEmpty(boxes[1..], n + 1);
    }
  }

  /** Empty boxes have no power. */
  lemma EmptyPower()
    ensures FocusingPower(Empty()) == 0
  {
    BoxesPowerOfEmpty(Empty(), 1);
  }

  /** The first `|steps|` parts read as `steps`. */
  predicate ReadAs(parts: seq<string>, steps: seq<Step>)
  {
    |steps| <= |parts| && forall i :: 0 <= i < |steps| ==> ParseStep(parts[i]) == Some(steps[i])
  }

  lemma ReadMore(parts: seq<string>, steps: seq<Step>, step: Step)
    requires ReadAs(parts, steps) && |steps| < |parts| && ParseStep(parts[|steps|]) == Some(step)
    ensures ReadAs(parts, steps + [step])
  {
    var next := steps + [step];
    forall i | 0 <= i < |next| ensures ParseStep(parts[i]) == Some(next[i]) {
      if i < |steps| {
        assert next[i] == steps[i];
      }
    }
  }

  lemma ReadFails(parts: seq<string>, n: nat)
    requires n < |parts| && ParseStep(parts[n]).None?
    ensures ParseSteps(parts).None?
  {
  }

  lemma ReadAll(parts: seq<string>, steps: seq<Step>)
    requires ReadAs(parts, steps) && |steps| == |parts|
    ensures ParseSteps(parts) == Some(steps)
  {
    var r := ParseSteps(parts);
    assert r.Some?;
    assert r.value == steps;
  }

  /** The fold of `solve`: the 256 boxes are updated in place, one step at a time; a step
      that cannot be read ends the procedure without an answer. */
  method Solve(input: string) returns (r: Option<nat>)
    ensures r.None? <==> ParseSteps(Steps(input)).None?
    ensures r.Some? ==> r.value == FocusingPower(Arrange(ParseSteps(Steps(input)).value))
  {
    var parts := Steps(input);
    var boxes := new seq<Lens>[256](k => []);
    ghost var steps: seq<Step> := [];
    var n := 0;
    while n < |parts|
      invariant n <= |parts| && |steps| == n && ReadAs(parts, steps)
      invariant boxes[..] == Arrange(steps)
    {
      var step := ParseStep(parts[n]);
      if step.None? {
        ReadFails(parts, n);
        return None;
      }
      ghost var before := boxes[..];
      var k := Hash(step.value.name);
      match step.value {
        case Remove(name) =>
          boxes[k] := Take(boxes[k], name);
        case Put(name, f) =>
          boxes[k] := Place(boxes[k], name, f);
      }
      assert boxes[..] == Apply(before, step.value);
      assert (steps + [step.value])[..n] == steps;
      ReadMore(parts, steps, step.value);
      steps := steps + [step.value];
      n := n + 1;
    }
    ReadAll(parts, steps);
    return Some(FocusingPower(boxes[..]));
  }
}
