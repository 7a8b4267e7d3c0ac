/** Day 19: splitting a half-open range `start..end` at a value into the part below the
    value and the part at or above it; a part that would be the whole range is the range
    itself and a part that would be empty is absent. */
module Day19SplitRange {
  import opened Text

  /** A half-open range of ratings, `start..end`. */
  datatype Range = Range(start: int, end: int)

  predicate In(r: Range, v: int)
  {
    r.start <= v < r.end
  }

  /** `v` lies in a part that is present. */
  predicate InPart(part: Option<Range>, v: int)
  {
    part.Some? && In(part.value, v)
  }

  /** `Range::len`: the number of values in the range, zero when it is empty. */
  function Len(r: Range): nat
  {
    if r.end > r.start then r.end - r.start else 0
  }

  function PartLen(part: Option<Range>): nat
  {
    if part.None? then 0 else Len(part.value)
  }

  /** `SplitRange::split`: the values below `value` go left and the others right; the two
      parts are disjoint, together they are the range and their lengths add up to its. */
  function Split(r: Range, value: int): (parts: (Option<Range>, Option<Range>))
    ensures forall v :: InPart(parts.0, v) <==> In(r, v) && v < value
    ensures forall v :: InPart(parts.1, v) <==> In(r, v) && value <= v
    ensures PartLen(parts.0) + PartLen(parts.1) == Len(r)
    ensures parts.0.Some? ==> parts.0.value.start == r.start
    ensures parts.1.Some? ==> parts.1.value.end == r.end
  {
    if r.start >= value then (None, Some(r))
    else if r.end <= value then (Some(r), None)
    else (Some(Range(r.start, value)), Some(Range(value, r.end)))
  }

  /** A range of a single value goes whole to one side: it is never cut. */
  lemma SplitSingle(v: int, value: int)
    ensures Split(Range(v, v + 1), value) == (if v < value then (Some(Range(v, v + 1)), None)
      else (None, Some(Range(v, v + 1))))
  {
  }

  /** A non-empty range keeps its non-empty parts non-empty: neither side is ever present
      and empty. */
  lemma SplitNonEmpty(r: Range, value: int)
    requires r.start < r.end
    ensures Split(r, value).0.Some? ==> Split(r, value).0.value.start < Split(r, value).0.value.end
    ensures Split(r, value).1.Some? ==> Split(r, value).1.value.start < Split(r, value).1.value.end
  {
  }

  /** The cases worked through for `split_range`. */
  lemma SplitExamples()
    ensures Split(Range(0, 10), 0) == (None, Some(Range(0, 10)))
    ensures Split(Range(1, 10), 0) == (None, Some(Range(1, 10)))
    ensures Split(Range(0, 10), 1) == (Some(Range(0, 1)), Some(Range(1, 10)))
    ensures Split(Range(0, 10), 5) == (Some(Range(0, 5)), Some(Range(5, 10)))
    ensures Split(Range(0, 10), 9) == (Some(Range(0, 9)), Some(Range(9, 10)))
    ensures Split(Range(0, 10), 10) == (Some(Range(0, 10)), None)
    ensures Split(Range(0, 10), 11) == (Some(Range(0, 10)), None)
  {
  }
}
