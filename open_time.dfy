/** OpenTime: the opening and closing time of one weekday.  The two fields
    hold TimeOfDay objects; the setters repair each other so that open is
    never after close, and the repair makes both fields hold the same
    object. */
module OpenTimes {
  import opened Text
  import opened Times

  /** The value of an OpenTime: its two clocks. */
  datatype Window = Window(open: Clock, close: Clock)

  predicate Ordered(w: Window) {
    !Before(w.close, w.open)
  }

  /** Open and close are equal: the day has no restriction. */
  predicate Unrestricted(w: Window) {
    w.open == w.close
  }

  predicate WindowInRange(w: Window) {
    InRange(w.open) && InRange(w.close)
  }

  // ---------------------------------------------------------------------
  // Text form
  // ---------------------------------------------------------------------

  /** ToString: "HH:MM, HH:MM". */
  function FormatWindow(w: Window): string {
    Format(w.open) + [','] + " " + Format(w.close)
  }

  /** Outcome of FromString: its result and the two values afterwards. */
  datatype WindowParsed = WindowParsed(ok: bool, window: Window)

  /** FromString on an object holding w, where `shared` says whether both
      fields hold one TimeOfDay object.  Each part is parsed into the object
      already held, in place, so the setters' repair does not run; a failed
      close part leaves the open part already written; and when the object
      is shared, each write shows through both fields. */
  function ParseWindow(s: string, w: Window, shared: bool): (r: WindowParsed)
    requires shared ==> w.open == w.close
    ensures shared ==> Unrestricted(r.window)
  {
    if IsBlank(s) then WindowParsed(false, w)
    else
      var parts := SplitEntries(s, ',');
      if |parts| != 2 then WindowParsed(false, w)
      else
        var p := ParseInto(parts[0], w.open);
        var closeNow := if shared then p.clock else w.close;
        if !p.ok then WindowParsed(false, Window(p.clock, closeNow))
        else
          var q := ParseInto(parts[1], closeNow);
          WindowParsed(q.ok, Window(if shared then q.clock else p.clock, q.clock))
  }

  /** ParseWindow on text that splits into two parts: the open part is
      parsed first, and the close part only when that succeeds. */
  lemma ParseWindowParts(s: string, w: Window, shared: bool)
    requires shared ==> w.open == w.close
    requires !IsBlank(s) && |SplitEntries(s, ',')| == 2
    ensures var parts := SplitEntries(s, ',');
      var p := ParseInto(parts[0], w.open);
      var closeNow := if shared then p.clock else w.close;
      var q := ParseInto(parts[1], closeNow);
      ParseWindow(s, w, shared)
        == if !p.ok then WindowParsed(false, Window(p.clock, closeNow))
           else WindowParsed(q.ok, Window(if shared then q.clock else p.clock, q.clock))
  {
  }

  /** Parsing keeps both clocks in range; blank or badly split text changes
      nothing. */
  lemma ParseWindowFrame(s: string, w: Window, shared: bool)
    requires shared ==> w.open == w.close
    requires WindowInRange(w)
    ensures WindowInRange(ParseWindow(s, w, shared).window)
    ensures IsBlank(s) || |SplitEntries(s, ',')| != 2 ==>
      ParseWindow(s, w, shared) == WindowParsed(false, w)
  {
    if !IsBlank(s) && |SplitEntries(s, ',')| == 2 {
      var parts := SplitEntries(s, ',');
      ParseIntoFrame(parts[0], w.open);
      var p := ParseInto(parts[0], w.open);
      ParseIntoFrame(parts[1], if shared then p.clock else w.close);
    }
  }

  /** FromString does not restore open <= close: from two separate objects,
      "18:00, 08:00" is accepted as it stands. */
  lemma ParseWindowKeepsDisorder(w: Window)
    ensures ParseWindow(FormatWindow(Window(Clock(18, 0), Clock(8, 0))), w, false)
      == WindowParsed(true, Window(Clock(18, 0), Clock(8, 0)))
    ensures !Ordered(Window(Clock(18, 0), Clock(8, 0)))
  {
    FormatWindowRoundTrip(Window(Clock(18, 0), Clock(8, 0)), w, false);
  }

  /** An "HH:MM" text holds no comma and starts and ends with a digit. */
  lemma FormatIsClean(c: Clock)
    requires InRange(c)
    ensures ',' !in Format(c) && !IsBlank(Format(c))
    ensures !IsWhiteSpace(Format(c)[0]) && !IsWhiteSpace(Format(c)[|Format(c)| - 1])
  {
    FormatShape(c);
    PadDigits(c.hours);
    PadDigits(c.minutes);
    var s := Format(c);
    assert s == Pad(c.hours) + [':'] + Pad(c.minutes);
    assert forall i :: 0 <= i < |s| ==> s[i] == ':' || IsDigit(s[i]);
  }

  /** ToString splits back into the two "HH:MM" texts. */
  lemma FormatWindowSplits(w: Window)
    requires WindowInRange(w)
    ensures !IsBlank(FormatWindow(w))
    ensures SplitEntries(FormatWindow(w), ',') == [Format(w.open), Format(w.close)]
  {
    var a, b := Format(w.open), Format(w.close);
    FormatIsClean(w.open);
    FormatIsClean(w.close);
    TrimNoOp(a);
    TrimSpaceBefore(b);
    assert ',' !in " " + b;
    assert !IsBlank(" " + b) by { assert (" " + b)[1] == b[0]; }
    SplitEntriesPair(a, " " + b, ',');
    AppendAssoc(a + [','], " ", b);
    assert FormatWindow(w)[0] == a[0];
  }

  /** FromString(ToString()) restores both clocks; with a shared object both
      clocks are necessarily one value. */
  lemma FormatWindowRoundTrip(w: Window, before: Window, shared: bool)
    requires WindowInRange(w)
    requires shared ==> before.open == before.close && w.open == w.close
    ensures ParseWindow(FormatWindow(w), before, shared) == WindowParsed(true, w)
  {
    FormatWindowSplits(w);
    FormatParseRoundTrip(w.open, before.open);
    FormatParseRoundTrip(w.close, if shared then w.open else before.close);
  }

  /** When both fields hold one object, FromString cannot give two
      different times: "08:00, 18:00" loads 18:00 into both. */
  lemma SharedParseCollapses(c: Clock)
    ensures ParseWindow(FormatWindow(Window(Clock(8, 0), Clock(18, 0))), Window(c, c), true)
      == WindowParsed(true, Window(Clock(18, 0), Clock(18, 0)))
  {
    var w := Window(Clock(8, 0), Clock(18, 0));
    FormatWindowSplits(w);
    FormatParseRoundTrip(Clock(8, 0), c);
    FormatParseRoundTrip(Clock(18, 0), Clock(8, 0));
  }

  // ---------------------------------------------------------------------
  // The object
  // ---------------------------------------------------------------------

  class OpenTime {
    var open: TimeOfDay
    var close: TimeOfDay

    function Value(): Window
      reads this, open, close
    {
      Window(open.Value(), close.Value())
    }

    /** Both held clocks are in range. */
    predicate Valid()
      reads this, open, close
    {
      open.Valid() && close.Valid()
    }

    /** The two fields hold one object. */
    predicate Shared()
      reads this
    {
      open == close
    }

    /** new OpenTime(): two fresh objects at 00:00, the unrestricted day. */
    constructor ()
      ensures Valid() && Unrestricted(Value()) && Value().open == Clock(0, 0)
      ensures fresh(open) && fresh(close) && !Shared()
    {
      open := new TimeOfDay(0, 0);
      close := new TimeOfDay(0, 0);
    }

    /** new OpenTime(open, close): close is replaced by open when it is
        earlier, and then both fields hold the open object. */
    constructor Between(o: TimeOfDay, c: TimeOfDay)
      ensures open == o
      ensures close == (if Before(c.Value(), o.Value()) then o else c)
      ensures Ordered(Value())
    {
      open := o;
      close := if c.Less(o) then o else c;
    }

    /** The Open setter: close is raised to the new open when it was
        earlier, by handing it the same object. */
    method SetOpen(v: TimeOfDay)
      modifies this
      ensures open == v
      ensures close == (if Before(old(close.Value()), v.Value()) then v else old(close))
      ensures Ordered(Value())
      decreases if Before(close.Value(), v.Value()) then 1 else 0
    {
      open := v;
      if open.Greater(close) {
        SetClose(open);
      }
    }

    /** The Close setter: open is lowered to the new close when it was
        later, by handing it the same object. */
    method SetClose(v: TimeOfDay)
      modifies this
      ensures close == v
      ensures open == (if Before(v.Value(), old(open.Value())) then v else old(open))
      ensures Ordered(Value())
      decreases if Before(v.Value(), open.Value()) then 1 else 0
    {
      close := v;
      if close.Less(open) {
        SetOpen(close);
      }
    }

    /** FromString: "HH:MM, HH:MM" parsed into the held objects. */
    method FromString(s: string) returns (ok: bool)
      modifies open, close
      ensures WindowParsed(ok, Value()) == ParseWindow(s, old(Value()), Shared())
      ensures old(Valid()) ==> Valid()
    {
      if IsBlank(s) {
        return false;
      }
      var split := SplitEntries(s, ',');
      if |split| != 2 {
        return false;
      }
      ParseWindowParts(s, Value(), Shared());
      ok := FromParts(split[0], split[1]);
    }

    /** The two parts of FromString: the open part parsed into the open
        object, then, when that succeeds, the close part into the close
        object (the same object when shared). */
    method FromParts(a: string, b: string) returns (ok: bool)
      modifies open, close
      ensures var w := old(Value());
        var p := ParseInto(a, w.open);
        var closeNow := if old(Shared()) then p.clock else w.close;
        var q := ParseInto(b, closeNow);
        WindowParsed(ok, Value())
          == if !p.ok then WindowParsed(false, Window(p.clock, closeNow))
             else WindowParsed(q.ok, Window(if old(Shared()) then q.clock else p.clock, q.clock))
      ensures old(Valid()) ==> Valid()
    {
      ghost var w, shared := Value(), Shared();
      ghost var p := ParseInto(a, w.open);
      ok := open.FromString(a);
      assert Value() == Window(p.clock, if shared then p.clock else w.close);
      if !ok {
        return false;
      }
      ghost var q := ParseInto(b, if shared then p.clock else w.close);
      ok := close.FromString(b);
      assert Value() == Window(if shared then q.clock else p.clock, q.clock);
    }

    /** ToString: both times, joined by ", ". */
    function ToString(): (r: string)
      reads this, open, close
      ensures Valid() ==> |r| == 12
      ensures Valid() ==> ParseWindow(r, Value(), Shared()) == WindowParsed(true, Value())
    {
      if Valid() then
        FormatShape(open.Value());
        FormatShape(close.Value());
        FormatWindowRoundTrip(Value(), Value(), Shared());
        FormatWindow(Value())
      else FormatWindow(Value())
    }
  }
}
