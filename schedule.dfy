/** OpenHours: one OpenTime per weekday, Sunday first, and the clipping of
    an instant to the business hours they describe. */
module Schedule {
  import opened Wrappers
  import opened Text
  import opened Times
  import opened OpenTimes
  import opened Dates
  import Xml

  /** Enum.GetName of the DayOfWeek values 0 to 6. */
  const DayNames: seq<string> :=
    ["Sunday", "Monday", "Tuesday", "Wednesday", "Thursday", "Friday", "Saturday"]

  /** The weekday before `day`; Sunday goes back to the last index. */
  function PreviousDay(day: int): (r: int)
    requires 0 <= day < 7
    ensures 0 <= r < 7 && (r + 1) % 7 == day
  {
    if day - 1 < 0 then 6 else day - 1
  }

  /** The instant is at or before the opening minute (seconds ignored). */
  predicate AtOrBeforeOpen(d: DateTime, open: Clock) {
    d.hour < open.hours || (d.hour == open.hours && d.minute <= open.minutes)
  }

  /** The instant is in a minute after the closing minute. */
  predicate AfterClose(d: DateTime, close: Clock) {
    d.hour > close.hours || (d.hour == close.hours && d.minute > close.minutes)
  }

  /** ClipToOpenHours on the seven window values.  None where the .NET
      code throws: the previous day of 0001-01-01 does not exist. */
  function Clip(ws: seq<Window>, d: DateTime): Option<DateTime>
    requires |ws| == 7 && Valid(d)
  {
    var w := ws[DayOfWeek(d)];
    if w.open == w.close then Some(d)
    else if AtOrBeforeOpen(d, w.open) then
      var p := ws[PreviousDay(DayOfWeek(d))];
      match Add(d, -TicksPerDay)
      case None => None
      case Some(t) => New(Year(t), Month(t), Day(t), p.close.hours, p.close.minutes, 0, 0)
    else if AfterClose(d, w.close) then
      New(Year(d), Month(d), Day(d), w.close.hours, w.close.minutes, 0, 0)
    else Some(d)
  }

  predicate AllInRange(ws: seq<Window>) {
    forall i :: 0 <= i < |ws| ==> WindowInRange(ws[i])
  }

  predicate AllOrdered(ws: seq<Window>) {
    forall i :: 0 <= i < |ws| ==> Ordered(ws[i])
  }

  /** An unrestricted day (open == close) leaves the instant alone. */
  lemma ClipUnrestricted(ws: seq<Window>, d: DateTime)
    requires |ws| == 7 && Valid(d)
    requires Unrestricted(ws[DayOfWeek(d)])
    ensures Clip(ws, d) == Some(d)
  {
  }

  /** At or before the opening minute, the instant moves to the previous
      calendar day at the previous weekday's closing time, seconds and
      below cleared; on the first representable day that fails. */
  lemma ClipBeforeOpen(ws: seq<Window>, d: DateTime)
    requires |ws| == 7 && Valid(d) && AllInRange(ws)
    requires !Unrestricted(ws[DayOfWeek(d)]) && AtOrBeforeOpen(d, ws[DayOfWeek(d)].open)
    ensures var p := ws[PreviousDay(DayOfWeek(d))];
      Clip(ws, d) == if d.day == 0 then None
                     else Some(DateTime(d.day - 1, p.close.hours, p.close.minutes, 0, 0, 0))
  {
    SubtractOneDay(d);
    if d.day > 0 {
      var p := ws[PreviousDay(DayOfWeek(d))];
      NewOnDay(d.(day := d.day - 1), p.close.hours, p.close.minutes, 0, 0);
    }
  }

  /** The previous day of a Sunday instant is looked up in Saturday's
      window. */
  lemma ClipSundayWraps(ws: seq<Window>, d: DateTime)
    requires |ws| == 7 && Valid(d) && AllInRange(ws) && d.day > 0
    requires DayOfWeek(d) == 0
    requires !Unrestricted(ws[0]) && AtOrBeforeOpen(d, ws[0].open)
    ensures Clip(ws, d) == Some(DateTime(d.day - 1, ws[6].close.hours, ws[6].close.minutes, 0, 0, 0))
    ensures DayOfWeek(Clip(ws, d).value) == 6
  {
    ClipBeforeOpen(ws, d);
    assert PreviousDay(0) == 6;
    PreviousWeekday(d);
  }

  /** After the closing minute, the instant moves back to the closing time
      of the same day, seconds and below cleared. */
  lemma ClipAfterClose(ws: seq<Window>, d: DateTime)
    requires |ws| == 7 && Valid(d) && AllInRange(ws)
    requires !Unrestricted(ws[DayOfWeek(d)]) && !AtOrBeforeOpen(d, ws[DayOfWeek(d)].open)
    requires AfterClose(d, ws[DayOfWeek(d)].close)
    ensures var c := ws[DayOfWeek(d)].close;
      Clip(ws, d) == Some(DateTime(d.day, c.hours, c.minutes, 0, 0, 0))
  {
    var c := ws[DayOfWeek(d)].close;
    NewOnDay(d, c.hours, c.minutes, 0, 0);
  }

  /** Inside the window, up to and including every second of the closing
      minute, the instant is kept as it is. */
  lemma ClipInside(ws: seq<Window>, d: DateTime)
    requires |ws| == 7 && Valid(d)
    requires !AtOrBeforeOpen(d, ws[DayOfWeek(d)].open) && !AfterClose(d, ws[DayOfWeek(d)].close)
    ensures Clip(ws, d) == Some(d)
  {
  }

  /** 19:30:45 on a day closing at 19:30 is not clipped. */
  lemma ClipKeepsClosingMinute(ws: seq<Window>, d: DateTime)
    requires |ws| == 7 && Valid(d)
    requires ws[DayOfWeek(d)] == Window(Clock(5, 30), Clock(19, 30))
    requires d.hour == 19 && d.minute == 30 && d.second == 45
    ensures Clip(ws, d) == Some(d)
  {
    ClipInside(ws, d);
  }

  /** A clipped instant is never later than the original. */
  lemma ClipNeverLater(ws: seq<Window>, d: DateTime)
    requires |ws| == 7 && Valid(d) && AllInRange(ws)
    ensures Clip(ws, d).Some? ==> Valid(Clip(ws, d).value) && Ticks(Clip(ws, d).value) <= Ticks(d)
  {
    var w := ws[DayOfWeek(d)];
    if w.open == w.close {
    } else if AtOrBeforeOpen(d, w.open) {
      ClipBeforeOpen(ws, d);
    } else if AfterClose(d, w.close) {
      ClipAfterClose(ws, d);
    }
  }

  /** An instant exactly at the closing minute of an ordered window is
      kept. */
  lemma ClipAtClosingTime(ws: seq<Window>, r: DateTime)
    requires |ws| == 7 && Valid(r)
    requires Ordered(ws[DayOfWeek(r)])
    requires r.hour == ws[DayOfWeek(r)].close.hours && r.minute == ws[DayOfWeek(r)].close.minutes
    ensures Clip(ws, r) == Some(r)
  {
    var w := ws[DayOfWeek(r)];
    if w.open != w.close {
      BeforeIsStrictTotalOrder(w.open, w.close, w.close);
      ClipInside(ws, r);
    }
  }

  /** With every window ordered, clipping twice is clipping once. */
  lemma ClipIdempotent(ws: seq<Window>, d: DateTime)
    requires |ws| == 7 && Valid(d) && AllInRange(ws) && AllOrdered(ws)
    requires Clip(ws, d).Some?
    ensures Valid(Clip(ws, d).value) && Clip(ws, Clip(ws, d).value) == Clip(ws, d)
  {
    var w := ws[DayOfWeek(d)];
    if w.open == w.close {
      ClipUnrestricted(ws, d);
    } else if AtOrBeforeOpen(d, w.open) {
      ClipIdempotentBeforeOpen(ws, d);
    } else if AfterClose(d, w.close) {
      ClipIdempotentAfterClose(ws, d);
    } else {
      ClipInside(ws, d);
    }
  }

  /** An instant at or before opening is clipped to the previous day's
      closing time, which clipping keeps. */
  lemma ClipIdempotentBeforeOpen(ws: seq<Window>, d: DateTime)
    requires |ws| == 7 && Valid(d) && AllInRange(ws) && AllOrdered(ws)
    requires ws[DayOfWeek(d)].open != ws[DayOfWeek(d)].close && AtOrBeforeOpen(d, ws[DayOfWeek(d)].open)
    requires Clip(ws, d).Some?
    ensures Valid(Clip(ws, d).value) && Clip(ws, Clip(ws, d).value) == Clip(ws, d)
  {
    ClipBeforeOpen(ws, d);
    PreviousClosingKept(ws, d);
  }

  /** An instant after closing is clipped to that day's closing time,
      which clipping keeps. */
  lemma ClipIdempotentAfterClose(ws: seq<Window>, d: DateTime)
    requires |ws| == 7 && Valid(d) && AllInRange(ws) && AllOrdered(ws)
    requires ws[DayOfWeek(d)].open != ws[DayOfWeek(d)].close
    requires !AtOrBeforeOpen(d, ws[DayOfWeek(d)].open) && AfterClose(d, ws[DayOfWeek(d)].close)
    ensures Valid(Clip(ws, d).value) && Clip(ws, Clip(ws, d).value) == Clip(ws, d)
  {
    ClipAfterClose(ws, d);
    ClosingKept(ws, d);
  }

  /** The closing time on d's day is kept by clipping. */
  lemma ClosingKept(ws: seq<Window>, d: DateTime)
    requires |ws| == 7 && Valid(d) && AllInRange(ws) && AllOrdered(ws)
    ensures var c := ws[DayOfWeek(d)].close;
      var r := DateTime(d.day, c.hours, c.minutes, 0, 0, 0);
      Valid(r) && Clip(ws, r) == Some(r)
  {
    var c := ws[DayOfWeek(d)].close;
    var r := DateTime(d.day, c.hours, c.minutes, 0, 0, 0);
    assert DayOfWeek(r) == DayOfWeek(d);
    assert WindowInRange(ws[DayOfWeek(d)]) && Ordered(ws[DayOfWeek(r)]);
    ClipAtClosingTime(ws, r);
  }

  /** The closing time of the day before d is kept by clipping. */
  lemma PreviousClosingKept(ws: seq<Window>, d: DateTime)
    requires |ws| == 7 && Valid(d) && AllInRange(ws) && AllOrdered(ws) && d.day >= 1
    ensures var c := ws[PreviousDay(DayOfWeek(d))].close;
      var r := DateTime(d.day - 1, c.hours, c.minutes, 0, 0, 0);
      Valid(r) && Clip(ws, r) == Some(r)
  {
    var c := ws[PreviousDay(DayOfWeek(d))].close;
    var r := DateTime(d.day - 1, c.hours, c.minutes, 0, 0, 0);
    PreviousWeekday(d);
    assert DayOfWeek(r) == PreviousDay(DayOfWeek(d));
    assert WindowInRange(ws[PreviousDay(DayOfWeek(d))]) && Ordered(ws[DayOfWeek(r)]);
    ClipAtClosingTime(ws, r);
  }

  // ---------------------------------------------------------------------
  // Loading and writing the seven days
  // ---------------------------------------------------------------------

  /** Outcome of LoadFromXml: its result and the seven windows afterwards. */
  datatype Loaded = Loaded(ok: bool, windows: seq<Window>)

  /** Slot k holds one TimeOfDay object in both fields only when its window
      is unrestricted. */
  predicate SharingFits(ws: seq<Window>, shared: seq<bool>)
    requires |ws| == |shared|
  {
    forall k :: 0 <= k < |ws| && shared[k] ==> Unrestricted(ws[k])
  }

  /** A day replaced by a window that keeps its sharing keeps the
      sharing of all seven. */
  lemma UpdateFits(ws: seq<Window>, shared: seq<bool>, i: nat, w: Window)
    requires |ws| == 7 && |shared| == 7 && i < 7 && SharingFits(ws, shared)
    requires shared[i] ==> Unrestricted(w)
    ensures SharingFits(ws[i := w], shared)
  {
  }

  /** LoadFromXml from day i on: each weekday name must be an attribute
      whose value OpenTime.FromString accepts; the first missing or
      unreadable one stops the load, with the days before it (and a
      failing day's open part) already overwritten. */
  function LoadDays(e: Xml.Element, ws: seq<Window>, shared: seq<bool>, i: nat): (r: Loaded)
    requires |ws| == 7 && |shared| == 7 && i <= 7 && SharingFits(ws, shared)
    ensures |r.windows| == 7 && SharingFits(r.windows, shared)
    ensures forall k :: 0 <= k < i ==> r.windows[k] == ws[k]
    decreases 7 - i
  {
    if i == 7 then Loaded(true, ws)
    else if !Xml.HasAttribute(e, DayNames[i]) then Loaded(false, ws)
    else
      var p := ParseWindow(Xml.GetAttribute(e, DayNames[i]), ws[i], shared[i]);
      var next := ws[i := p.window];
      UpdateFits(ws, shared, i, p.window);
      if !p.ok then Loaded(false, next)
      else LoadDays(e, next, shared, i + 1)
  }

  /** One attribute of ToString: the day's name and its "HH:MM, HH:MM",
      continued on the next line under the first attribute. */
  function DayAttribute(ws: seq<Window>, newline: string, i: nat): string
    requires |ws| == 7 && i < 7
  {
    (if i > 0 then Repeat(' ', 11) else "") + (DayNames[i] + "=\"" + FormatWindow(ws[i]) + "\"")
    + (if i + 1 < 7 then newline else "")
  }

  /** The opening of the element and the attributes of the first n
      days. */
  function HoursTextUpTo(ws: seq<Window>, newline: string, n: nat): string
    requires |ws| == 7 && n <= 7
  {
    if n == 0 then "<OpenHours "
    else HoursTextUpTo(ws, newline, n - 1) + DayAttribute(ws, newline, n - 1)
  }

  /** OpenHours.ToString; `newline` is Environment.NewLine. */
  function HoursText(ws: seq<Window>, newline: string): string
    requires |ws| == 7
  {
    HoursTextUpTo(ws, newline, 7) + "/>"
  }

  /** The weekday names are distinct. */
  lemma DayNamesDistinct()
    ensures forall i, j :: 0 <= i < j < 7 ==> DayNames[i] != DayNames[j]
  {
  }

  /** The attributes of the first n days: name to "HH:MM, HH:MM". */
  function DayAttributes(ws: seq<Window>, n: nat): map<string, string>
    requires |ws| == 7 && n <= 7
  {
    if n == 0 then map[] else DayAttributes(ws, n - 1)[DayNames[n - 1] := FormatWindow(ws[n - 1])]
  }

  /** The element HoursText describes: one attribute per weekday. */
  function HoursElement(ws: seq<Window>): Xml.Element
    requires |ws| == 7
  {
    Xml.Element("OpenHours", DayAttributes(ws, 7), [])
  }

  /** The element carries day i's window under day i's name. */
  predicate DayWritten(e: Xml.Element, ws: seq<Window>, i: nat)
    requires |ws| == 7 && i < 7
  {
    Xml.HasAttribute(e, DayNames[i]) && e.attrs[DayNames[i]] == FormatWindow(ws[i])
  }

  lemma {:induction false} DayAttributesHold(ws: seq<Window>, n: nat, i: nat)
    requires |ws| == 7 && i < n <= 7
    ensures DayNames[i] in DayAttributes(ws, n)
    ensures DayAttributes(ws, n)[DayNames[i]] == FormatWindow(ws[i])
  {
    if i < n - 1 {
      DayAttributesHold(ws, n - 1, i);
      DayAttributeKept(ws, n, i);
    } else {
      DayAttributeLast(ws, n);
    }
  }

  /** Day n - 1's attribute is the last one added. */
  lemma DayAttributeLast(ws: seq<Window>, n: nat)
    requires |ws| == 7 && 1 <= n <= 7
    ensures DayNames[n - 1] in DayAttributes(ws, n)
    ensures DayAttributes(ws, n)[DayNames[n - 1]] == FormatWindow(ws[n - 1])
  {
  }

  /** Adding a later day's attribute keeps day i's. */
  lemma DayAttributeKept(ws: seq<Window>, n: nat, i: nat)
    requires |ws| == 7 && i < n - 1 && n <= 7
    requires DayNames[i] in DayAttributes(ws, n - 1)
    requires DayAttributes(ws, n - 1)[DayNames[i]] == FormatWindow(ws[i])
    ensures DayNames[i] in DayAttributes(ws, n)
    ensures DayAttributes(ws, n)[DayNames[i]] == FormatWindow(ws[i])
  {
    DayNamesDistinct();
    assert DayNames[i] != DayNames[n - 1];
  }

  lemma HoursElementHasDays(ws: seq<Window>)
    requires |ws| == 7
    ensures forall i :: 0 <= i < 7 ==> DayWritten(HoursElement(ws), ws, i)
  {
    forall i | 0 <= i < 7
      ensures DayWritten(HoursElement(ws), ws, i)
    {
      DayAttributesHold(ws, 7, i);
    }
  }

  /** The days before i from ws, the rest from before. */
  function Merge(ws: seq<Window>, before: seq<Window>, i: nat): (m: seq<Window>)
    requires |ws| == 7 && |before| == 7
    ensures |m| == 7
    ensures forall j :: 0 <= j < 7 ==> m[j] == if j < i then ws[j] else before[j]
  {
    seq(7, j requires 0 <= j < 7 => if j < i then ws[j] else before[j])
  }

  lemma MergeFits(ws: seq<Window>, before: seq<Window>, shared: seq<bool>, i: nat)
    requires |ws| == 7 && |before| == 7 && |shared| == 7
    requires SharingFits(ws, shared) && SharingFits(before, shared)
    ensures SharingFits(Merge(ws, before, i), shared)
  {
  }

  /** A day whose text is accepted moves the load on to the next day. */
  lemma LoadDayStep(e: Xml.Element, m: seq<Window>, w: Window, shared: seq<bool>, i: nat)
    requires |m| == 7 && |shared| == 7 && i < 7
    requires SharingFits(m, shared) && SharingFits(m[i := w], shared)
    requires Xml.HasAttribute(e, DayNames[i])
    requires ParseWindow(Xml.GetAttribute(e, DayNames[i]), m[i], shared[i]) == WindowParsed(true, w)
    ensures LoadDays(e, m, shared, i) == LoadDays(e, m[i := w], shared, i + 1)
  {
  }

  /** Loading day i from m: when its attribute is present and parses into
      w, the load stops with w in place or moves on to day i + 1. */
  lemma LoadDayOutcome(e: Xml.Element, m: seq<Window>, shared: seq<bool>, i: nat, ok: bool, w: Window)
    requires |m| == 7 && |shared| == 7 && i < 7 && SharingFits(m, shared)
    requires Xml.HasAttribute(e, DayNames[i])
    requires ParseWindow(Xml.GetAttribute(e, DayNames[i]), m[i], shared[i]) == WindowParsed(ok, w)
    ensures SharingFits(m[i := w], shared)
    ensures LoadDays(e, m, shared, i)
      == if ok then LoadDays(e, m[i := w], shared, i + 1) else Loaded(false, m[i := w])
  {
    UpdateFits(m, shared, i, w);
  }

  /** A day written as "HH:MM, HH:MM" parses back into its window. */
  lemma ParseWrittenDay(e: Xml.Element, ws: seq<Window>, held: Window, shared: seq<bool>, i: nat)
    requires |ws| == 7 && |shared| == 7 && i < 7
    requires WindowInRange(ws[i]) && DayWritten(e, ws, i)
    requires shared[i] ==> Unrestricted(ws[i]) && Unrestricted(held)
    ensures ParseWindow(Xml.GetAttribute(e, DayNames[i]), held, shared[i]) == WindowParsed(true, ws[i])
  {
    FormatWindowRoundTrip(ws[i], held, shared[i]);
  }

  lemma MergeStep(ws: seq<Window>, before: seq<Window>, i: nat)
    requires |ws| == 7 && |before| == 7 && i < 7
    ensures Merge(ws, before, i)[i := ws[i]] == Merge(ws, before, i + 1)
  {
  }

  /** Loading day i, when the element carries ws[i] for it. */
  lemma LoadWrittenDay(e: Xml.Element, ws: seq<Window>, before: seq<Window>, shared: seq<bool>, i: nat)
    requires |ws| == 7 && |before| == 7 && |shared| == 7 && i < 7
    requires AllInRange(ws) && SharingFits(ws, shared) && SharingFits(before, shared)
    requires DayWritten(e, ws, i)
    ensures SharingFits(Merge(ws, before, i), shared) && SharingFits(Merge(ws, before, i + 1), shared)
    ensures LoadDays(e, Merge(ws, before, i), shared, i) == LoadDays(e, Merge(ws, before, i + 1), shared, i + 1)
  {
    MergeFits(ws, before, shared, i);
    MergeFits(ws, before, shared, i + 1);
    var m := Merge(ws, before, i);
    ParseWrittenDay(e, ws, m[i], shared, i);
    MergeStep(ws, before, i);
    LoadDayStep(e, m, ws[i], shared, i);
  }

  /** Days i to k - 1 that carry the windows of ws are loaded as those
      windows, whatever the slots held before. */
  lemma {:induction false} LoadWrittenDays(e: Xml.Element, ws: seq<Window>, before: seq<Window>,
                                          shared: seq<bool>, i: nat, k: nat)
    requires |ws| == 7 && |before| == 7 && |shared| == 7 && i <= k <= 7
    requires AllInRange(ws) && SharingFits(ws, shared) && SharingFits(before, shared)
    requires forall j :: i <= j < k ==> DayWritten(e, ws, j)
    ensures SharingFits(Merge(ws, before, i), shared) && SharingFits(Merge(ws, before, k), shared)
    ensures LoadDays(e, Merge(ws, before, i), shared, i) == LoadDays(e, Merge(ws, before, k), shared, k)
    decreases k - i
  {
    MergeFits(ws, before, shared, i);
    MergeFits(ws, before, shared, k);
    if i < k {
      LoadWrittenDay(e, ws, before, shared, i);
      LoadWrittenDays(e, ws, before, shared, i + 1, k);
    }
  }

  /** Loading the element ToString describes restores all seven windows. */
  lemma LoadHoursRoundTrip(ws: seq<Window>, before: seq<Window>, shared: seq<bool>)
    requires |ws| == 7 && |before| == 7 && |shared| == 7
    requires AllInRange(ws) && SharingFits(ws, shared) && SharingFits(before, shared)
    ensures LoadDays(HoursElement(ws), before, shared, 0) == Loaded(true, ws)
  {
    HoursElementHasDays(ws);
    LoadWrittenDays(HoursElement(ws), ws, before, shared, 0, 7);
    assert Merge(ws, before, 0) == before;
    assert Merge(ws, before, 7) == ws;
  }

  /** A missing day stops the load: the days before it are already
      loaded, the day itself and the later ones keep their windows. */
  lemma LoadStopsAtMissingDay(e: Xml.Element, ws: seq<Window>, before: seq<Window>,
                              shared: seq<bool>, k: nat)
    requires |ws| == 7 && |before| == 7 && |shared| == 7 && k < 7
    requires AllInRange(ws) && SharingFits(ws, shared) && SharingFits(before, shared)
    requires forall j :: 0 <= j < k ==> DayWritten(e, ws, j)
    requires !Xml.HasAttribute(e, DayNames[k])
    ensures LoadDays(e, before, shared, 0) == Loaded(false, Merge(ws, before, k))
  {
    LoadWrittenDays(e, ws, before, shared, 0, k);
    assert Merge(ws, before, 0) == before;
  }

  /** SetDefaults: Sunday 08:00-18:00, Saturday 06:00-18:00, every other
      day 05:30-19:30. */
  function DefaultWindow(day: int): Window {
    if day == 0 then Window(Clock(8, 0), Clock(18, 0))
    else if day == 6 then Window(Clock(6, 0), Clock(18, 0))
    else Window(Clock(5, 30), Clock(19, 30))
  }

  // ---------------------------------------------------------------------
  // The object
  // ---------------------------------------------------------------------

  /** new OpenTime(new TimeOfDay(..), new TimeOfDay(..)) for an ordered
      window in range: a slot of its own, holding w. */
  method NewSlot(w: Window) returns (t: OpenTime)
    requires WindowInRange(w) && Ordered(w)
    ensures fresh(t) && fresh(t.open) && fresh(t.close)
    ensures t.Valid() && t.Value() == w && !t.Shared()
  {
    var o := new TimeOfDay(w.open.hours, w.open.minutes);
    var c := new TimeOfDay(w.close.hours, w.close.minutes);
    t := new OpenTime.Between(o, c);
  }

  /** Slot t holds w in two objects of its own. */
  predicate OwnSlot(t: OpenTime, w: Window)
    reads t, t.open, t.close
  {
    t.Valid() && t.Value() == w && !t.Shared()
  }

  /** The window of a new OpenTime(): 00:00 to 00:00, no restriction. */
  const AllDay: Window := Window(Clock(0, 0), Clock(0, 0))

  /** Seven copies of x. */
  function Seven<T>(x: T): (r: seq<T>)
    ensures |r| == 7 && forall k :: 0 <= k < 7 ==> r[k] == x
  {
    [x, x, x, x, x, x, x]
  }

  /** A slot made by new OpenTime(): two new clocks, 00:00 to 00:00. */
  twostate predicate NewAllDay(new t: OpenTime)
    reads t, t.open, t.close
  {
    fresh(t.open) && fresh(t.close) && OwnSlot(t, AllDay)
  }

  /** The three objects of one slot, as references only. */
  datatype SlotIds = SlotIds(slot: OpenTime, open: TimeOfDay, close: TimeOfDay)

  predicate Disjoint(x: SlotIds, y: SlotIds) {
    x.slot != y.slot && x.open != y.open && x.open != y.close && x.close != y.open && x.close != y.close
  }

  /** The array of new OpenHours(): seven new OpenTime() slots. */
  method FreshSlots() returns (a: array<OpenTime>)
    ensures fresh(a) && a.Length == 7
    ensures forall i, j :: 0 <= i < j < 7 ==> Apart(a[i], a[j])
    ensures forall k :: 0 <= k < 7 ==> NewAllDay(a[k])
  {
    var first := new OpenTime();
    a := new OpenTime[7](_ => first);
    ghost var ids := [SlotIds(first, first.open, first.close)];
    var i := 1;
    while i < 7
      invariant 1 <= i <= 7 && |ids| == i
      invariant forall k :: 0 <= k < i ==> ids[k] == SlotIds(a[k], a[k].open, a[k].close)
      invariant forall j, k :: 0 <= j < k < i ==> Disjoint(ids[j], ids[k])
      invariant forall k :: 0 <= k < i ==> NewAllDay(a[k])
    {
      var t := new OpenTime();
      a[i] := t;
      ids := ids + [SlotIds(t, t.open, t.close)];
      i := i + 1;
    }
  }

  /** Two slots are different objects holding different TimeOfDay
      objects. */
  predicate Apart(s: OpenTime, t: OpenTime)
    reads s, t
  {
    s != t && s.open != t.open && s.open != t.close && s.close != t.open && s.close != t.close
  }

  class OpenHours {
    var times: array<OpenTime>

    /** The OpenTime objects of the slots. */
    function Slots(): set<OpenTime>
      reads this, times
    {
      set i | 0 <= i < times.Length :: times[i]
    }

    /** The TimeOfDay objects the slots hold. */
    function Clocks(): set<TimeOfDay>
      reads this, times, Slots()
    {
      (set i | 0 <= i < times.Length :: times[i].open)
      + (set i | 0 <= i < times.Length :: times[i].close)
    }

    /** Slots below n are pairwise apart, so writing through one slot
        leaves the others alone. */
    predicate SeparateUpTo(n: int)
      reads this, times, Slots()
      requires n <= times.Length
    {
      forall i, j :: 0 <= i < j < n ==> Apart(times[i], times[j])
    }

    /** Seven slots, separate, every clock in range. */
    predicate Valid()
      reads this, times, Slots(), Clocks()
    {
      times.Length == 7 && SeparateUpTo(7) && AllInRange(Windows())
    }

    function WindowsFrom(i: nat): (ws: seq<Window>)
      reads this, times, Slots(), Clocks()
      requires i <= times.Length
      ensures |ws| == times.Length - i
      ensures forall k :: 0 <= k < |ws| ==> ws[k] == times[i + k].Value()
      decreases times.Length - i
    {
      if i == times.Length then [] else [times[i].Value()] + WindowsFrom(i + 1)
    }

    /** The values of the seven days. */
    function Windows(): (ws: seq<Window>)
      reads this, times, Slots(), Clocks()
      ensures |ws| == times.Length
      ensures forall k :: 0 <= k < times.Length ==> ws[k] == times[k].Value()
    {
      WindowsFrom(0)
    }

    function SharingFrom(i: nat): (sh: seq<bool>)
      reads this, times, Slots()
      requires i <= times.Length
      ensures |sh| == times.Length - i
      ensures forall k :: 0 <= k < |sh| ==> sh[k] == times[i + k].Shared()
      decreases times.Length - i
    {
      if i == times.Length then [] else [times[i].Shared()] + SharingFrom(i + 1)
    }

    /** Which days hold one TimeOfDay object in both fields. */
    function Sharing(): (sh: seq<bool>)
      reads this, times, Slots()
      ensures |sh| == times.Length
      ensures forall k :: 0 <= k < times.Length ==> sh[k] == times[k].Shared()
    {
      SharingFrom(0)
    }

    lemma ValidFits()
      requires Valid()
      ensures AllInRange(Windows()) && SharingFits(Windows(), Sharing())
    {
    }

    /** new OpenHours(): seven new OpenTime() slots, then the stored
        document loaded into them; `document` is the root element of the
        opening-hours file when it exists and parses.  Where there is none,
        or it does not load, every day gets its default window. */
    constructor (document: Option<Xml.Element>)
      ensures Valid()
      ensures document.Some? && LoadDays(document.value, Seven(AllDay), Seven(false), 0).ok ==>
        Windows() == LoadDays(document.value, Seven(AllDay), Seven(false), 0).windows
      ensures document.None? || !LoadDays(document.value, Seven(AllDay), Seven(false), 0).ok ==>
        forall k :: 0 <= k < 7 ==> Windows()[k] == DefaultWindow(k)
    {
      var slots := FreshSlots();
      times := slots;
      new;
      AllDaySlots();
      var ok := false;
      if document.Some? {
        ok := LoadFromXml(document.value);
      }
      if !ok {
        SetDefaults();
      }
    }

    /** Seven unrestricted, unshared slots. */
    lemma AllDaySlots()
      requires times.Length == 7 && SeparateUpTo(7)
      requires forall k :: 0 <= k < 7 ==> OwnSlot(times[k], AllDay)
      ensures Valid() && Windows() == Seven(AllDay) && Sharing() == Seven(false)
    {
    }

    /** Get(day): the slot of a weekday; None where the index is out of
        range and .NET throws. */
    function Get(day: int): (r: Option<OpenTime>)
      reads this, times, Slots(), Clocks()
      ensures r.Some? <==> 0 <= day < times.Length
      ensures r.Some? ==> r.value == times[day] && r.value.Value() == Windows()[day]
    {
      if day < 0 || day >= times.Length then None else Some(times[day])
    }

    /** ClipToOpenHours, read from the slot objects. */
    function ClipToOpenHours(d: DateTime): (r: Option<DateTime>)
      reads this, times, Slots(), Clocks()
      requires Valid() && Dates.Valid(d)
      ensures r == Clip(Windows(), d)
    {
      var otime := Get(DayOfWeek(d)).value;
      if otime.open.EqualTo(otime.close) then Some(d)
      else if d.hour < otime.open.hours
              || (d.hour == otime.open.hours && d.minute <= otime.open.minutes) then
        var prev := if DayOfWeek(d) - 1 < 0 then times.Length - 1 else DayOfWeek(d) - 1;
        var ptime := Get(prev).value;
        match Add(d, -TicksPerDay)
        case None => None
        case Some(t) => New(Year(t), Month(t), Day(t), ptime.close.hours, ptime.close.minutes, 0, 0)
      else if d.hour > otime.close.hours
              || (d.hour == otime.close.hours && d.minute > otime.close.minutes) then
        New(Year(d), Month(d), Day(d), otime.close.hours, otime.close.minutes, 0, 0)
      else Some(d)
    }

    /** LoadFromXml: the weekdays read in order into the slots' objects. */
    method LoadFromXml(e: Xml.Element) returns (ok: bool)
      requires Valid()
      modifies Clocks()
      ensures Valid()
      ensures Loaded(ok, Windows()) == LoadDays(e, old(Windows()), old(Sharing()), 0)
    {
      ValidFits();
      var i := 0;
      while i < times.Length
        invariant 0 <= i <= 7 && times.Length == 7
        invariant Valid()
        invariant Sharing() == old(Sharing())
        invariant LoadDays(e, Windows(), Sharing(), i) == LoadDays(e, old(Windows()), old(Sharing()), 0)
      {
        ok := LoadDay(e, i);
        if !ok {
          return false;
        }
        i := i + 1;
      }
      return true;
    }

    /** One turn of LoadFromXml's loop: day i's attribute, when present,
        parsed into slot i's objects. */
    method LoadDay(e: Xml.Element, i: int) returns (ok: bool)
      requires Valid() && 0 <= i < 7
      modifies times[i].open, times[i].close
      ensures Valid() && Sharing() == old(Sharing())
      ensures LoadDays(e, old(Windows()), Sharing(), i)
        == if ok then LoadDays(e, Windows(), Sharing(), i + 1) else Loaded(false, Windows())
    {
      ValidFits();
      var name := DayNames[i];
      if !Xml.HasAttribute(e, name) {
        return false;
      }
      var text := Xml.GetAttribute(e, name);
      SlotApart(i);
      ok := times[i].FromString(text);
      SlotChanged(i);
      LoadDayOutcome(e, old(Windows()), old(Sharing()), i, ok, times[i].Value());
    }

    /** The clocks of every other slot are not slot i's. */
    lemma SlotApart(i: int)
      requires Valid() && 0 <= i < 7
      ensures forall k :: 0 <= k < 7 && k != i ==>
        times[k].open !in {times[i].open, times[i].close} && times[k].close !in {times[i].open, times[i].close}
    {
      forall k | 0 <= k < 7 && k != i
        ensures times[k].open !in {times[i].open, times[i].close}
        ensures times[k].close !in {times[i].open, times[i].close}
      {
        if k < i {
          assert Apart(times[k], times[i]);
        } else {
          assert Apart(times[i], times[k]);
        }
      }
    }

    /** Writing through slot i's clocks changes day i and no other. */
    twostate lemma SlotChanged(i: int)
      requires old(Valid()) && 0 <= i < 7
      requires unchanged(this)
      requires forall k :: 0 <= k < 7 ==>
        times[k] == old(times[k]) && times[k].open == old(times[k].open) && times[k].close == old(times[k].close)
      requires forall k :: 0 <= k < 7 && k != i ==> times[k].Value() == old(times[k].Value())
      requires times[i].Valid()
      ensures Valid() && Sharing() == old(Sharing())
      ensures Windows() == old(Windows())[i := times[i].Value()]
    {
    }

    /** ToString, as its StringBuilder loop writes it; the indent is
        "OpenHours".Length + 2 spaces. */
    method ToString(newline: string) returns (s: string)
      requires Valid()
      ensures s == HoursText(Windows(), newline)
    {
      ghost var ws := Windows();
      var sb := "<OpenHours ";
      var i := 0;
      while i < times.Length
        invariant 0 <= i <= 7 && times.Length == |ws| == 7
        invariant sb == HoursTextUpTo(ws, newline, i)
      {
        var space := if i > 0 then Repeat(' ', 11) else "";
        var text := times[i].ToString();
        assert text == FormatWindow(ws[i]);
        var lineEnd := if i + 1 < times.Length then newline else "";
        var piece := space + (DayNames[i] + "=\"" + text + "\"") + lineEnd;
        assert piece == DayAttribute(ws, newline, i);
        sb := sb + piece;
        i := i + 1;
        assert sb == HoursTextUpTo(ws, newline, i);
      }
      s := sb + "/>";
    }

    /** SetDefaults: every slot replaced by a new OpenTime holding two new
        TimeOfDay objects. */
    method SetDefaults()
      requires times.Length == 7
      modifies times
      ensures Valid()
      ensures forall k :: 0 <= k < 7 ==> Windows()[k] == DefaultWindow(k) && !times[k].Shared()
    {
      var i := 0;
      while i < 7
        invariant 0 <= i <= 7
        invariant SeparateUpTo(i)
        invariant forall k :: 0 <= k < i ==> OwnSlot(times[k], DefaultWindow(k))
      {
        var t := NewSlot(DefaultWindow(i));
        assert forall k :: 0 <= k < i ==> Apart(times[k], t);
        times[i] := t;
        i := i + 1;
      }
    }
  }
}
