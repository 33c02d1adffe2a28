/** System.TimeSpan as a signed 64-bit count of 100 ns ticks.  Its
    component properties use C#'s long division, which truncates toward
    zero, so every component of a negative span is zero or negative. */
module Spans {
  import opened Wrappers

  const Int64Min: int := -0x8000_0000_0000_0000
  const Int64Max: int := 0x7FFF_FFFF_FFFF_FFFF

  predicate InInt64(t: int) {
    Int64Min <= t <= Int64Max
  }

  const TicksPerMillisecond: int := 10_000
  const TicksPerHour: int := 36_000_000_000
  const TicksPerDay: int := 864_000_000_000

  /** C#'s integer division: the quotient truncated toward zero. */
  function TruncDiv(a: int, b: int): int
    requires b > 0
  {
    if a >= 0 then a / b else -((-a) / b)
  }

  /** C#'s remainder: takes the sign of the dividend. */
  function TruncMod(a: int, b: int): int
    requires b > 0
  {
    if a >= 0 then a % b else -((-a) % b)
  }

  /** TimeSpan.Days. */
  function Days(t: int): int {
    TruncDiv(t, 864_000_000_000)
  }

  /** TimeSpan.Hours. */
  function Hours(t: int): int {
    TruncMod(TruncDiv(t, 36_000_000_000), 24)
  }

  /** TimeSpan.Minutes. */
  function Minutes(t: int): int {
    TruncMod(TruncDiv(t, 600_000_000), 60)
  }

  /** TimeSpan.Seconds. */
  function Seconds(t: int): int {
    TruncMod(TruncDiv(t, 10_000_000), 60)
  }

  /** TimeSpan.Milliseconds. */
  function Milliseconds(t: int): int {
    TruncMod(TruncDiv(t, 10_000), 1000)
  }

  /** The largest whole number of milliseconds a TimeSpan can hold. */
  const MaxMilliseconds: int := 922_337_203_685_477

  /** new TimeSpan(days, hours, minutes, seconds, milliseconds): None where
      the total leaves the representable range (the constructor throws). */
  function New(days: int, h: int, m: int, s: int, ms: int): (r: Option<int>)
    ensures r.Some? ==> InInt64(r.value) && r.value % TicksPerMillisecond == 0
    ensures r.Some? <==> -MaxMilliseconds <= TotalMilliseconds(days, h, m, s, ms) <= MaxMilliseconds
  {
    var total := TotalMilliseconds(days, h, m, s, ms);
    if total > MaxMilliseconds || total < -MaxMilliseconds then None
    else Some(total * 10_000)
  }

  function TotalMilliseconds(days: int, h: int, m: int, s: int, ms: int): int {
    (days * 86_400 + h * 3600 + m * 60 + s) * 1000 + ms
  }

  /** TimeSpan.FromHours(n) for a whole number of hours. */
  function FromHours(n: int): (t: int)
    ensures n >= 0 ==> Days(t) == n / 24 && Hours(t) == n % 24
    ensures Minutes(t) == 0 && Seconds(t) == 0 && Milliseconds(t) == 0
  {
    var t := n * 36_000_000_000;
    var a := if n >= 0 then n else -n;
    var u := a * 36_000_000_000;
    assert u >= 0;
    assert u / 36_000_000_000 == a;
    assert u / 864_000_000_000 == a / 24;
    assert u / 600_000_000 == a * 60;
    assert u / 10_000_000 == a * 3600;
    assert u / 10_000 == a * 3_600_000;
    assert n < 0 ==> -t == u;
    t
  }

  /** TimeSpan.FromDays(1). */
  const OneDay: int := TicksPerDay

  /** The span truncated toward zero to whole milliseconds. */
  function WholeMilliseconds(t: int): (r: int)
    ensures r % TicksPerMillisecond == 0
    ensures t >= 0 ==> 0 <= t - r < TicksPerMillisecond
    ensures t < 0 ==> 0 <= r - t < TicksPerMillisecond
    ensures r == t <==> t % TicksPerMillisecond == 0
  {
    TruncDiv(t, 10_000) * 10_000
  }

  /** For a span that is not negative, the five components add back up to
      its whole milliseconds. */
  lemma ComponentsOfNonNegative(u: int)
    requires u >= 0
    ensures TotalMilliseconds(Days(u), Hours(u), Minutes(u), Seconds(u), Milliseconds(u)) == u / 10_000
    ensures 0 <= Hours(u) < 24 && 0 <= Minutes(u) < 60 && 0 <= Seconds(u) < 60
    ensures 0 <= Milliseconds(u) < 1000 && Days(u) >= 0
  {
    var ms := u / 10_000;
    var s := ms / 1000;
    var mi := s / 60;
    var h := mi / 60;
    assert u / 10_000_000 == s;
    assert u / 600_000_000 == mi;
    assert u / 36_000_000_000 == h;
    assert u / 864_000_000_000 == h / 24;
    assert ms == s * 1000 + ms % 1000;
    assert s == mi * 60 + s % 60;
    assert mi == h * 60 + mi % 60;
    assert h == (h / 24) * 24 + h % 24;
  }

  /** Each component of a negative span is the negation of the component of
      its absolute value. */
  lemma ComponentsOfNegative(t: int)
    requires t < 0
    ensures Days(t) == -Days(-t) && Hours(t) == -Hours(-t) && Minutes(t) == -Minutes(-t)
    ensures Seconds(t) == -Seconds(-t) && Milliseconds(t) == -Milliseconds(-t)
  {
  }

  /** Every component of a span lies strictly within its unit's bounds,
      with the sign of the span. */
  lemma ComponentBounds(t: int)
    requires InInt64(t)
    ensures -10_675_200 < Days(t) < 10_675_200
    ensures -24 < Hours(t) < 24 && -60 < Minutes(t) < 60 && -60 < Seconds(t) < 60
    ensures -1000 < Milliseconds(t) < 1000
  {
    if t >= 0 {
      ComponentsOfNonNegative(t);
    } else {
      ComponentsOfNonNegative(-t);
      ComponentsOfNegative(t);
    }
  }

  /** Writing a span as Days, Hours, Minutes, Seconds and Milliseconds and
      building a span from them again keeps it to the millisecond. */
  lemma FieldsRoundTrip(t: int)
    requires InInt64(t)
    ensures New(Days(t), Hours(t), Minutes(t), Seconds(t), Milliseconds(t)) == Some(WholeMilliseconds(t))
    ensures -10_675_199 <= Days(t) <= 10_675_199
  {
    if t >= 0 {
      ComponentsOfNonNegative(t);
    } else {
      ComponentsOfNonNegative(-t);
      ComponentsOfNegative(t);
      assert TotalMilliseconds(Days(t), Hours(t), Minutes(t), Seconds(t), Milliseconds(t))
          == -TotalMilliseconds(Days(-t), Hours(-t), Minutes(-t), Seconds(-t), Milliseconds(-t));
    }
  }
}
