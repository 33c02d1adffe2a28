/** Ranges: an inclusive interval [Min, Max] over 32-bit integers that
    repairs itself so that Min never exceeds Max, and clamps values into
    it.  The generic IRange default methods are stated on integers; the
    two integer ranges hold their bounds at their own widths. */
module Ranges {
  newtype Int32 = x: int | -0x8000_0000 <= x <= 0x7FFF_FFFF
  newtype UInt32 = x: int | 0 <= x <= 0xFFFF_FFFF

  const MinInt32: Int32 := -0x8000_0000
  const MaxInt32: Int32 := 0x7FFF_FFFF
  const MaxUInt32: UInt32 := 0xFFFF_FFFF

  // ---------------------------------------------------------------------
  // IRange<T> default methods
  // ---------------------------------------------------------------------

  /** IRange.Apply: below Min gives Min, above Max gives Max, anything
      else is kept. */
  function DefaultApply(lo: int, hi: int, v: int): (r: int)
    ensures v < lo ==> r == lo
    ensures lo <= v && v > hi ==> r == hi
    ensures lo <= hi ==> lo <= r <= hi
    ensures lo <= v <= hi ==> r == v
  {
    if v < lo then lo
    else if v > hi then hi
    else v
  }

  /** Clamping twice is clamping once. */
  lemma DefaultApplyIdempotent(lo: int, hi: int, v: int)
    requires lo <= hi
    ensures DefaultApply(lo, hi, DefaultApply(lo, hi, v)) == DefaultApply(lo, hi, v)
  {
    var r := DefaultApply(lo, hi, v);
    assert lo <= r <= hi;
  }

  /** IRange.WithinRange as written: not (below Min and above Max). */
  function DefaultWithinRange(lo: int, hi: int, v: int): (r: bool)
    ensures lo <= hi ==> r
  {
    !(v < lo && v > hi)
  }

  /** What WithinRange is evidently meant to answer: Min <= v <= Max, the
      values Apply keeps. */
  function DefaultInRange(lo: int, hi: int, v: int): (r: bool)
    ensures r <==> DefaultApply(lo, hi, v) == v
  {
    lo <= v <= hi
  }

  /** WithinRange as written accepts a value above the range, which the
      intended test rejects. */
  lemma DefaultWithinRangeAcceptsAbove(lo: int, hi: int)
    requires lo <= hi
    ensures DefaultWithinRange(lo, hi, hi + 1) && !DefaultInRange(lo, hi, hi + 1)
  {
  }

  // ---------------------------------------------------------------------
  // IntRange
  // ---------------------------------------------------------------------

  /** IntRange: bounds m_min and m_max. */
  class IntRange {
    var min: Int32
    var max: Int32

    /** The invariant every constructor and setter establishes. */
    predicate Valid()
      reads this
    {
      min <= max
    }

    /** new IntRange(): every int. */
    constructor Full()
      ensures min == MinInt32 && max == MaxInt32
      ensures Valid() && forall v: Int32 {:trigger Apply(v)} :: Apply(v) == v
    {
      min := MinInt32;
      max := MaxInt32;
    }

    /** new IntRange(min, max): a max below min is raised to min. */
    constructor (min: Int32, max: Int32)
      ensures this.min == min
      ensures this.max == (if max < min then min else max)
      ensures Valid()
    {
      this.min := min;
      this.max := if max < min then min else max;
    }

    /** The Min setter: Max is raised to the new Min when it falls
        below it. */
    method SetMin(value: Int32)
      modifies this
      ensures min == value
      ensures max == (if old(max) < value then value else old(max))
      ensures Valid()
    {
      min := value;
      if max < min {
        max := min;
      }
    }

    /** The Max setter: Min is lowered to the new Max when it rises
        above it. */
    method SetMax(value: Int32)
      modifies this
      ensures max == value
      ensures min == (if value < old(min) then value else old(min))
      ensures Valid()
    {
      max := value;
      if max < min {
        min := max;
      }
    }

    /** Apply(val): the value clamped into [Min, Max], by the IRange
        rule. */
    function Apply(val: Int32): (r: Int32)
      reads this
      ensures r as int == DefaultApply(min as int, max as int, val as int)
      ensures Valid() ==> min <= r <= max
      ensures min <= val <= max ==> r == val
    {
      if val < min then min
      else if val > max then max
      else val
    }

    /** WithinRange(val) as written. */
    function WithinRange(val: Int32): (r: bool)
      reads this
      ensures r == DefaultWithinRange(min as int, max as int, val as int)
      ensures Valid() ==> r
    {
      !(val < min && val > max)
    }

    /** WithinRange as evidently intended: the values Apply keeps. */
    function InRange(val: Int32): (r: bool)
      reads this
      ensures r <==> Apply(val) == val
    {
      min <= val <= max
    }
  }

  /** Clamping into an IntRange twice is clamping once. */
  lemma IntApplyIdempotent(range: IntRange, v: Int32)
    requires range.Valid()
    ensures range.Apply(range.Apply(v)) == range.Apply(v)
  {
    DefaultApplyIdempotent(range.min as int, range.max as int, v as int);
  }

  /** An IntRange below the top of int accepts Max + 1 in WithinRange,
      though it lies outside the range. */
  lemma IntWithinRangeAcceptsAbove(range: IntRange)
    requires range.Valid() && range.max < MaxInt32
    ensures range.WithinRange(range.max + 1) && !range.InRange(range.max + 1)
  {
  }

  // ---------------------------------------------------------------------
  // UIntRange
  // ---------------------------------------------------------------------

  /** UIntRange: bounds m_min and m_max. */
  class UIntRange {
    var min: UInt32
    var max: UInt32

    /** The invariant every constructor and setter establishes. */
    predicate Valid()
      reads this
    {
      min <= max
    }

    /** new UIntRange(): every uint. */
    constructor Full()
      ensures min == 0 && max == MaxUInt32
      ensures Valid() && forall v: UInt32 {:trigger Apply(v)} :: Apply(v) == v
    {
      min := 0;
      max := MaxUInt32;
    }

    /** new UIntRange(min, max): a max below min is raised to min. */
    constructor (min: UInt32, max: UInt32)
      ensures this.min == min
      ensures this.max == (if max < min then min else max)
      ensures Valid()
    {
      this.min := min;
      this.max := if max < min then min else max;
    }

    /** The Min setter: Max is raised to the new Min when it falls
        below it. */
    method SetMin(value: UInt32)
      modifies this
      ensures min == value
      ensures max == (if old(max) < value then value else old(max))
      ensures Valid()
    {
      min := value;
      if max < min {
        max := min;
      }
    }

    /** The Max setter: Min is lowered to the new Max when it rises
        above it. */
    method SetMax(value: UInt32)
      modifies this
      ensures max == value
      ensures min == (if value < old(min) then value else old(min))
      ensures Valid()
    {
      max := value;
      if max < min {
        min := max;
      }
    }

    /** Apply(val): the value clamped into [Min, Max], by the IRange
        rule. */
    function Apply(val: UInt32): (r: UInt32)
      reads this
      ensures r as int == DefaultApply(min as int, max as int, val as int)
      ensures Valid() ==> min <= r <= max
      ensures min <= val <= max ==> r == val
    {
      if val < min then min
      else if val > max then max
      else val
    }

    /** WithinRange(val) as written. */
    function WithinRange(val: UInt32): (r: bool)
      reads this
      ensures r == DefaultWithinRange(min as int, max as int, val as int)
      ensures Valid() ==> r
    {
      !(val < min && val > max)
    }

    /** WithinRange as evidently intended: the values Apply keeps. */
    function InRange(val: UInt32): (r: bool)
      reads this
      ensures r <==> Apply(val) == val
    {
      min <= val <= max
    }
  }

  /** Clamping into a UIntRange twice is clamping once. */
  lemma UIntApplyIdempotent(range: UIntRange, v: UInt32)
    requires range.Valid()
    ensures range.Apply(range.Apply(v)) == range.Apply(v)
  {
    DefaultApplyIdempotent(range.min as int, range.max as int, v as int);
  }

  /** A UIntRange below the top of uint accepts Max + 1 in WithinRange,
      though it lies outside the range. */
  lemma UIntWithinRangeAcceptsAbove(range: UIntRange)
    requires range.Valid() && range.max < MaxUInt32
    ensures range.WithinRange(range.max + 1) && !range.InRange(range.max + 1)
  {
  }
}
