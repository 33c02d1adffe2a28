/** TimeOfDay: an hour and a minute, clamped into 00:00..23:59 on every
    write, ordered hour first, with an "HH:MM" text form.  The original is a
    reference type (OpenTime may hold one object twice), so it is a class
    here; its value is a `Clock`. */
module Times {
  import opened Wrappers
  import opened Text

  /** Math.Clamp(v, lo, hi). */
  function Clamp(v: int, lo: int, hi: int): (r: int)
    requires lo <= hi
    ensures lo <= r <= hi
    ensures lo <= v <= hi ==> r == v
    ensures v < lo ==> r == lo
    ensures v > hi ==> r == hi
  {
    if v < lo then lo else if v > hi then hi else v
  }

  /** The value held by a TimeOfDay object. */
  datatype Clock = Clock(hours: int, minutes: int)

  predicate InRange(c: Clock) {
    0 <= c.hours <= 23 && 0 <= c.minutes <= 59
  }

  /** The clock both fields clamp an (h, m) pair to. */
  function Clamped(h: int, m: int): (c: Clock)
    ensures InRange(c)
    ensures InRange(Clock(h, m)) ==> c == Clock(h, m)
  {
    Clock(Clamp(h, 0, 23), Clamp(m, 0, 59))
  }

  // ---------------------------------------------------------------------
  // Order
  // ---------------------------------------------------------------------

  /** Lexicographic order: hours first, then minutes. */
  predicate Before(a: Clock, b: Clock) {
    a.hours < b.hours || (a.hours == b.hours && a.minutes < b.minutes)
  }

  /** Before is a strict total order on clocks. */
  lemma BeforeIsStrictTotalOrder(a: Clock, b: Clock, c: Clock)
    ensures !Before(a, a)
    ensures Before(a, b) ==> !Before(b, a)
    ensures Before(a, b) && Before(b, c) ==> Before(a, c)
    ensures a == b || Before(a, b) || Before(b, a)
  {
  }

  // ---------------------------------------------------------------------
  // Text form
  // ---------------------------------------------------------------------

  /** One field of ToString: a '0' is put in front of values below 10. */
  function Pad(n: int): string {
    if n < 10 then "0" + IntToString(n) else IntToString(n)
  }

  /** ToString: "HH:MM". */
  function Format(c: Clock): string {
    Pad(c.hours) + [':'] + Pad(c.minutes)
  }

  /** Below 100, a field is written as its two decimal digits. */
  lemma PadDigits(n: int)
    requires 0 <= n <= 99
    ensures Pad(n) == [DigitChar(n / 10), DigitChar(n % 10)]
  {
    if n < 10 {
      assert NatToString(n) == [DigitChar(n)];
    } else {
      assert NatToString(n / 10) == [DigitChar(n / 10)];
    }
  }

  /** A field below 100 is two digits that read back as its value. */
  lemma PadTwoDigits(n: int)
    requires 0 <= n <= 99
    ensures |Pad(n)| == 2 && AllDigits(Pad(n)) && DigitsValue(Pad(n)) == n
    ensures ParseInt32(Pad(n)) == Some(n)
  {
    if n < 10 {
      assert NatToString(n) == [DigitChar(n)];
      ParsePaddedNat(n);
      DigitsValueLeadingZero(NatToString(n));
    } else {
      assert NatToString(n / 10) == [DigitChar(n / 10)];
      FormatThenParse(n);
      DigitsValueOfNat(n);
    }
  }

  /** ToString is zero-padded "HH:MM" whose digits spell the fields. */
  lemma FormatShape(c: Clock)
    requires InRange(c)
    ensures |Format(c)| == 5 && Format(c)[2] == ':'
    ensures Format(c)[..2] == Pad(c.hours) && Format(c)[3..] == Pad(c.minutes)
    ensures AllDigits(Format(c)[..2]) && AllDigits(Format(c)[3..])
  {
    PadDigits(c.hours);
    PadDigits(c.minutes);
  }

  /** Outcome of FromString: its result and the value afterwards. */
  datatype Parsed = Parsed(ok: bool, clock: Clock)

  /** FromString applied to an object holding c.  Blank text and text that
      does not split into exactly two non-empty parts leave c alone. */
  function ParseInto(s: string, c: Clock): Parsed {
    if IsBlank(s) then Parsed(false, c)
    else
      var parts := SplitEntries(s, ':');
      if |parts| != 2 then Parsed(false, c)
      else ParseFields(parts[0], parts[1], c)
  }

  /** The two fields of FromString.  The hours are written (clamped) before
      the minutes are parsed, so a bad minutes part fails after the hours
      have changed. */
  function ParseFields(hs: string, ms: string, c: Clock): Parsed {
    match ParseInt32(hs)
    case None => Parsed(false, c)
    case Some(h) =>
      var c1 := c.(hours := Clamp(h, 0, 23));
      match ParseInt32(ms)
      case None => Parsed(false, c1)
      case Some(m) => Parsed(true, c1.(minutes := Clamp(m, 0, 59)))
  }

  /** Parsing never takes a clock out of range, and a failure never touches
      the minutes; blank or badly split text changes nothing. */
  lemma ParseIntoFrame(s: string, c: Clock)
    requires InRange(c)
    ensures InRange(ParseInto(s, c).clock)
    ensures !ParseInto(s, c).ok ==> ParseInto(s, c).clock.minutes == c.minutes
    ensures IsBlank(s) || |SplitEntries(s, ':')| != 2 ==> ParseInto(s, c) == Parsed(false, c)
  {
    if !IsBlank(s) {
      var parts := SplitEntries(s, ':');
      if |parts| == 2 {
        ParseFieldsFrame(parts[0], parts[1], c);
      }
    }
  }

  /** The fields keep an in-range clock in range, and a failure keeps the
      minutes. */
  lemma ParseFieldsFrame(hs: string, ms: string, c: Clock)
    requires InRange(c)
    ensures InRange(ParseFields(hs, ms, c).clock)
    ensures !ParseFields(hs, ms, c).ok ==> ParseFields(hs, ms, c).clock.minutes == c.minutes
  {
  }

  /** Text made of two clean parts around one ':' is read field by field. */
  lemma ParseIntoPair(a: string, b: string, c: Clock)
    requires a != [] && b != [] && ':' !in a && ':' !in b
    requires Trim(a) == a && Trim(b) == b
    ensures ParseInto(a + [':'] + b, c) == ParseFields(a, b, c)
  {
    SplitEntriesPair(a, b, ':');
    var s := a + [':'] + b;
    assert !IsBlank(s) by {
      assert Trim(a) != [];
      assert !IsWhiteSpace(a[0]);
      assert s[0] == a[0];
    }
  }

  /** Out-of-range numbers are clamped, not rejected: any two two-digit
      fields are accepted, so "25:99" reads as 23:59. */
  lemma ParseClampsOutOfRange(h: int, m: int, c: Clock)
    requires 0 <= h <= 99 && 0 <= m <= 99
    ensures ParseInto(Pad(h) + [':'] + Pad(m), c) == Parsed(true, Clamped(h, m))
    ensures h == 25 && m == 99 ==> Clamped(h, m) == Clock(23, 59)
  {
    PaddedPairParses(h, m, c);
  }

  /** A padded field is a trimmed piece without a colon that reads back as
      its value. */
  lemma PaddedField(n: int)
    requires 0 <= n <= 99
    ensures Pad(n) != [] && ':' !in Pad(n) && Trim(Pad(n)) == Pad(n)
    ensures ParseInt32(Pad(n)) == Some(n)
  {
    PadDigits(n);
    PadTwoDigits(n);
    TrimNoOp(Pad(n));
  }

  /** Two padded fields around a colon read as the clamped clock. */
  lemma PaddedPairParses(h: int, m: int, c: Clock)
    requires 0 <= h <= 99 && 0 <= m <= 99
    ensures ParseInto(Pad(h) + [':'] + Pad(m), c) == Parsed(true, Clamped(h, m))
  {
    PaddedField(h);
    PaddedField(m);
    ParseIntoPair(Pad(h), Pad(m), c);
    FieldsParse(Pad(h), Pad(m), c, h, m);
  }

  /** Two fields that parse give the clamped clock. */
  lemma FieldsParse(hs: string, ms: string, c: Clock, h: int, m: int)
    requires ParseInt32(hs) == Some(h) && ParseInt32(ms) == Some(m)
    ensures ParseFields(hs, ms, c) == Parsed(true, Clamped(h, m))
  {
  }

  /** A failed minutes part leaves the hours already overwritten: "7:xx"
      fails, yet the hours become 7. */
  lemma ParsePartialFailure(c: Clock)
    ensures ParseInto("7:xx", c) == Parsed(false, Clock(7, c.minutes))
  {
    var a, b := [DigitChar(7)], "xx";
    assert a + [':'] + b == "7:xx";
    SevenThenJunk(c);
    TrimNoOp(a);
    TrimNoOp(b);
    ParseIntoPair(a, b, c);
  }

  /** The fields "7" and "xx": the hours parse, the minutes do not. */
  lemma SevenThenJunk(c: Clock)
    ensures ParseFields([DigitChar(7)], "xx", c) == Parsed(false, Clock(7, c.minutes))
  {
    SevenParses();
    JunkFails();
  }

  /** The text "7" reads as 7. */
  lemma SevenParses()
    ensures ParseInt32([DigitChar(7)]) == Some(7)
  {
    assert NatToString(7) == [DigitChar(7)];
    FormatThenParse(7);
  }

  /** The text "xx" is not a number. */
  lemma JunkFails()
    ensures ParseInt32("xx") == None
  {
    var b := "xx";
    assert !AllDigits(b) by { assert !IsDigit(b[0]); }
  }

  /** FromString(ToString()) restores the value, whatever was held before. */
  lemma FormatParseRoundTrip(c: Clock, before: Clock)
    requires InRange(c)
    ensures ParseInto(Format(c), before) == Parsed(true, c)
  {
    PaddedPairParses(c.hours, c.minutes, before);
  }

  // ---------------------------------------------------------------------
  // The object
  // ---------------------------------------------------------------------

  class TimeOfDay {
    var hours: int
    var minutes: int

    function Value(): Clock
      reads this
    {
      Clock(hours, minutes)
    }

    /** Every write clamps, so every object is always in range. */
    predicate Valid()
      reads this
    {
      InRange(Value())
    }

    /** new TimeOfDay(hours, minutes): out-of-range inputs are clamped. */
    constructor (h: int, m: int)
      ensures Valid()
      ensures Value() == Clamped(h, m)
    {
      hours := Clamp(h, 0, 23);
      minutes := Clamp(m, 0, 59);
    }

    /** The Hours setter. */
    method SetHours(v: int)
      modifies this
      ensures Valid() <== old(Valid())
      ensures hours == Clamp(v, 0, 23) && minutes == old(minutes)
    {
      hours := Clamp(v, 0, 23);
    }

    /** The Minutes setter. */
    method SetMinutes(v: int)
      modifies this
      ensures Valid() <== old(Valid())
      ensures minutes == Clamp(v, 0, 59) && hours == old(hours)
    {
      minutes := Clamp(v, 0, 59);
    }

    /** FromString: parses "HH:MM" into this object through the setters. */
    method FromString(s: string) returns (ok: bool)
      modifies this
      ensures Parsed(ok, Value()) == ParseInto(s, old(Value()))
      ensures Valid() <== old(Valid())
    {
      if IsBlank(s) {
        return false;
      }
      var split := SplitEntries(s, ':');
      if |split| != 2 {
        return false;
      }
      var h := ParseInt32(split[0]);
      if h.None? {
        return false;
      }
      SetHours(h.value);
      var m := ParseInt32(split[1]);
      if m.None? {
        return false;
      }
      SetMinutes(m.value);
      return true;
    }

    /** ToString: five characters "HH:MM" for an object in range. */
    function ToString(): (r: string)
      reads this
      ensures Valid() ==> |r| == 5 && r[2] == ':'
      ensures Valid() ==> ParseInto(r, Value()) == Parsed(true, Value())
    {
      if Valid() then
        FormatShape(Value());
        FormatParseRoundTrip(Value(), Value());
        Format(Value())
      else Format(Value())
    }

    /** Equals(other): structural; false for null. */
    function Equals(other: TimeOfDay?): (r: bool)
      reads this, other
      ensures r <==> other != null && Value() == other.Value()
    {
      other != null && hours == other.hours && minutes == other.minutes
    }

    /** CompareTo(other): 0 exactly when Equals holds, negative exactly when
        this is earlier, positive otherwise. */
    function CompareTo(other: TimeOfDay): (r: int)
      reads this, other
      ensures r == 0 <==> Value() == other.Value()
      ensures r < 0 <==> Before(Value(), other.Value())
      ensures r > 0 <==> Before(other.Value(), Value())
      ensures -1 <= r <= 1
    {
      if Equals(other) then 0
      else if hours < other.hours || (hours == other.hours && minutes < other.minutes) then -1
      else 1
    }

    /** operator < */
    function Less(other: TimeOfDay): (r: bool)
      reads this, other
      ensures r <==> Before(Value(), other.Value())
    {
      CompareTo(other) < 0
    }

    /** operator <= */
    function LessOrEqual(other: TimeOfDay): (r: bool)
      reads this, other
      ensures r <==> !Before(other.Value(), Value())
    {
      CompareTo(other) <= 0
    }

    /** operator > */
    function Greater(other: TimeOfDay): (r: bool)
      reads this, other
      ensures r <==> Before(other.Value(), Value())
    {
      CompareTo(other) > 0
    }

    /** operator >= */
    function GreaterOrEqual(other: TimeOfDay): (r: bool)
      reads this, other
      ensures r <==> !Before(Value(), other.Value())
    {
      CompareTo(other) >= 0
    }

    /** operator == and operator != compare values, not references. */
    function EqualTo(other: TimeOfDay): (r: bool)
      reads this, other
      ensures r <==> Value() == other.Value()
      ensures r <==> CompareTo(other) == 0
    {
      Equals(other)
    }
  }
}
