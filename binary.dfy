/** The binary streams behind BinaryReader and BinaryWriter, as sequences
    of tokens: every Write call appends one token and every Read call takes
    the next one.  A read fails (the reader throws) when the stream is used
    up or when the next token is of another kind.  An item that serialises
    itself is a pair of functions over tokens, a Codec. */
module Binary {
  import opened Wrappers
  import opened Text
  import Dates
  import Spans

  datatype Token = Int32(n: int) | Str(s: string)

  // ---------------------------------------------------------------------
  // Reading and writing single tokens
  // ---------------------------------------------------------------------

  /** The int at position i, if there is one. */
  function IntAt(s: seq<Token>, i: nat): (r: Option<int>)
    ensures r.Some? <==> i < |s| && s[i].Int32?
    ensures r.Some? ==> r.value == s[i].n
  {
    if i < |s| && s[i].Int32? then Some(s[i].n) else None
  }

  /** The string at position i, if there is one. */
  function StrAt(s: seq<Token>, i: nat): (r: Option<string>)
    ensures r.Some? <==> i < |s| && s[i].Str?
    ensures r.Some? ==> r.value == s[i].s
  {
    if i < |s| && s[i].Str? then Some(s[i].s) else None
  }

  /** A BinaryReader: the stream and the position of the next read. */
  class Reader {
    const tokens: seq<Token>
    var pos: nat

    predicate Valid()
      reads this
    {
      pos <= |tokens|
    }

    /** new BinaryReader(stream), at the start of the stream. */
    constructor (s: seq<Token>)
      ensures tokens == s && pos == 0 && Valid()
    {
      tokens := s;
      pos := 0;
    }

    /** ReadInt32: the next int, moving past it; nothing is consumed when
        the read fails. */
    method ReadInt32() returns (v: Option<int>)
      requires Valid()
      modifies this
      ensures Valid()
      ensures v == IntAt(tokens, old(pos))
      ensures pos == if v.Some? then old(pos) + 1 else old(pos)
    {
      v := IntAt(tokens, pos);
      if v.Some? {
        pos := pos + 1;
      }
    }

    /** ReadString: the next string, moving past it. */
    method ReadString() returns (v: Option<string>)
      requires Valid()
      modifies this
      ensures Valid()
      ensures v == StrAt(tokens, old(pos))
      ensures pos == if v.Some? then old(pos) + 1 else old(pos)
    {
      v := StrAt(tokens, pos);
      if v.Some? {
        pos := pos + 1;
      }
    }
  }

  /** A BinaryWriter: everything written so far. */
  class Writer {
    var tokens: seq<Token>

    constructor ()
      ensures tokens == []
    {
      tokens := [];
    }

    /** Write(int): four bytes, one token. */
    method WriteInt32(v: int)
      requires InInt32(v)
      modifies this
      ensures tokens == old(tokens) + [Int32(v)]
    {
      tokens := tokens + [Int32(v)];
    }

    /** Write(string): a length-prefixed string, one token. */
    method WriteString(v: string)
      modifies this
      ensures tokens == old(tokens) + [Str(v)]
    {
      tokens := tokens + [Str(v)];
    }
  }

  // ---------------------------------------------------------------------
  // Items that serialise themselves
  // ---------------------------------------------------------------------

  /** A loaded item and the number of tokens its load consumed. */
  datatype Item<T> = Item(value: T, used: nat)

  /** The outcome of SaveToStream: its result and what it wrote, which is
      kept even when it fails part way. */
  datatype Saved = Saved(ok: bool, tokens: seq<Token>)

  /** LoadFromStream of a new item, reading from the front of what is left
      of the stream, and SaveToStream of an item. */
  datatype Codec<!T> = Codec(load: seq<Token> -> Option<Item<T>>, save: T -> Saved)

  /** Loading never reads past the end of the stream. */
  ghost predicate Bounded<T>(c: Codec<T>) {
    forall s :: c.load(s).Some? ==> c.load(s).value.used <= |s|
  }

  /** Loading what a successful save wrote gives the item back, consuming
      exactly what was written, whatever follows it. */
  ghost predicate RoundTrips<T(!new)>(c: Codec<T>) {
    forall x, rest :: LoadsBack(c, x, rest)
  }

  /** Loading x's saved form followed by rest gives x back. */
  ghost predicate LoadsBack<T>(c: Codec<T>, x: T, rest: seq<Token>) {
    c.save(x).ok ==> c.load(c.save(x).tokens + rest) == Some(Item(x, |c.save(x).tokens|))
  }

  ghost predicate Sound<T(!new)>(c: Codec<T>) {
    Bounded(c) && RoundTrips(c)
  }

  /** Loading a new item from position pos of the stream. */
  function LoadAt<T>(c: Codec<T>, s: seq<Token>, pos: nat): (r: Option<Item<T>>)
    requires Bounded(c) && pos <= |s|
    ensures r.Some? ==> pos + r.value.used <= |s|
  {
    c.load(s[pos..])
  }

  /** item.LoadFromStream(reader) on a new item: the item and the reader
      moved past it, or a failure that leaves the reader where it was. */
  method LoadItem<T>(r: Reader, c: Codec<T>) returns (x: Option<T>)
    requires r.Valid() && Bounded(c)
    modifies r
    ensures r.Valid()
    ensures LoadAt(c, r.tokens, old(r.pos)).None? ==> x.None? && r.pos == old(r.pos)
    ensures LoadAt(c, r.tokens, old(r.pos)).Some? ==>
      x == Some(LoadAt(c, r.tokens, old(r.pos)).value.value)
      && r.pos == old(r.pos) + LoadAt(c, r.tokens, old(r.pos)).value.used
  {
    var loaded := LoadAt(c, r.tokens, r.pos);
    if loaded.None? {
      return None;
    }
    r.pos := r.pos + loaded.value.used;
    x := Some(loaded.value.value);
  }

  // ---------------------------------------------------------------------
  // DateTime and TimeSpan fields
  // ---------------------------------------------------------------------

  /** The stream holds n ints from position i on. */
  predicate IntsAt(s: seq<Token>, i: nat, n: nat) {
    i + n <= |s| && forall k :: i <= k < i + n ==> s[k].Int32?
  }

  /** How many of the n reads from position i succeed before the first
      failure. */
  function IntRun(s: seq<Token>, i: nat, n: nat): (r: nat)
    ensures r <= n && (r > 0 ==> i + r <= |s|)
    ensures i <= |s| ==> (r == n <==> IntsAt(s, i, n))
    decreases n
  {
    if n == 0 then 0
    else if IntAt(s, i).None? then
      assert !IntsAt(s, i, n) by {
        if i + n <= |s| { assert !s[i].Int32?; }
      }
      0
    else 1 + IntRun(s, i + 1, n - 1)
  }

  /** The value ReadDateTime reads at position i: seven ints, Year, Month,
      Day, Hour, Minute, Second, Millisecond, given to the DateTime
      constructor. */
  function DateTimeAt(s: seq<Token>, i: nat): (r: Option<Dates.DateTime>)
    ensures r.Some? ==> IntsAt(s, i, 7) && Dates.Valid(r.value) && r.value.subTicks == 0
  {
    if IntsAt(s, i, 7) then
      Dates.New(s[i].n, s[i + 1].n, s[i + 2].n, s[i + 3].n, s[i + 4].n, s[i + 5].n, s[i + 6].n)
    else None
  }

  /** The value ReadTimeSpan reads at position i: five ints, Days, Hours,
      Minutes, Seconds, Milliseconds, given to the TimeSpan constructor. */
  function TimeSpanAt(s: seq<Token>, i: nat): (r: Option<int>)
    ensures r.Some? ==> IntsAt(s, i, 5) && Spans.InInt64(r.value)
  {
    if IntsAt(s, i, 5) then
      Spans.New(s[i].n, s[i + 1].n, s[i + 2].n, s[i + 3].n, s[i + 4].n)
    else None
  }

  /** What Write(DateTime) writes. */
  function DateTimeTokens(d: Dates.DateTime): (r: seq<Token>)
    requires Dates.Valid(d)
    ensures |r| == 7 && forall k :: 0 <= k < 7 ==> r[k].Int32? && InInt32(r[k].n)
  {
    [Int32(Dates.Year(d)), Int32(Dates.Month(d)), Int32(Dates.Day(d)), Int32(d.hour),
     Int32(d.minute), Int32(d.second), Int32(d.millisecond)]
  }

  /** What Write(TimeSpan) writes. */
  function TimeSpanTokens(t: int): (r: seq<Token>)
    requires Spans.InInt64(t)
    ensures |r| == 5 && forall k :: 0 <= k < 5 ==> r[k].Int32? && InInt32(r[k].n)
  {
    Spans.FieldsRoundTrip(t);
    Spans.ComponentBounds(t);
    [Int32(Spans.Days(t)), Int32(Spans.Hours(t)), Int32(Spans.Minutes(t)),
     Int32(Spans.Seconds(t)), Int32(Spans.Milliseconds(t))]
  }

  /** Binary.ReadDateTime: the seven fields are all read before the
      constructor runs, so a bad date still consumes them; a short stream
      stops at the first missing int. */
  method ReadDateTime(r: Reader) returns (d: Option<Dates.DateTime>)
    requires r.Valid()
    modifies r
    ensures r.Valid()
    ensures d == DateTimeAt(r.tokens, old(r.pos))
    ensures r.pos == old(r.pos) + IntRun(r.tokens, old(r.pos), 7)
  {
    var y :- r.ReadInt32();
    var mo :- r.ReadInt32();
    var dd :- r.ReadInt32();
    var h :- r.ReadInt32();
    var mi :- r.ReadInt32();
    var s :- r.ReadInt32();
    var ms :- r.ReadInt32();
    d := Dates.New(y, mo, dd, h, mi, s, ms);
  }

  /** Binary.ReadTimeSpan: five fields, then the constructor. */
  method ReadTimeSpan(r: Reader) returns (t: Option<int>)
    requires r.Valid()
    modifies r
    ensures r.Valid()
    ensures t == TimeSpanAt(r.tokens, old(r.pos))
    ensures r.pos == old(r.pos) + IntRun(r.tokens, old(r.pos), 5)
  {
    var days :- r.ReadInt32();
    var h :- r.ReadInt32();
    var mi :- r.ReadInt32();
    var s :- r.ReadInt32();
    var ms :- r.ReadInt32();
    t := Spans.New(days, h, mi, s, ms);
  }

  /** Binary.Write(DateTime): Year, Month, Day, Hour, Minute, Second and
      Millisecond, in that order. */
  method WriteDateTime(d: Dates.DateTime, w: Writer) returns (ok: bool)
    requires Dates.Valid(d)
    modifies w
    ensures ok && w.tokens == old(w.tokens) + DateTimeTokens(d)
  {
    var fields := DateTimeTokens(d);
    w.WriteInt32(Dates.Year(d));
    w.WriteInt32(Dates.Month(d));
    w.WriteInt32(Dates.Day(d));
    w.WriteInt32(d.hour);
    w.WriteInt32(d.minute);
    w.WriteInt32(d.second);
    w.WriteInt32(d.millisecond);
    return true;
  }

  /** Binary.Write(TimeSpan): Days, Hours, Minutes, Seconds and
      Milliseconds, in that order. */
  method WriteTimeSpan(t: int, w: Writer) returns (ok: bool)
    requires Spans.InInt64(t)
    modifies w
    ensures ok && w.tokens == old(w.tokens) + TimeSpanTokens(t)
  {
    var fields := TimeSpanTokens(t);
    w.WriteInt32(Spans.Days(t));
    w.WriteInt32(Spans.Hours(t));
    w.WriteInt32(Spans.Minutes(t));
    w.WriteInt32(Spans.Seconds(t));
    w.WriteInt32(Spans.Milliseconds(t));
    return true;
  }

  /** Reading back what Write(DateTime) wrote, wherever it sits in the
      stream, gives the DateTime to the millisecond and consumes the seven
      fields. */
  lemma DateTimeRoundTrip(d: Dates.DateTime, before: seq<Token>, after: seq<Token>)
    requires Dates.Valid(d)
    ensures DateTimeAt(before + DateTimeTokens(d) + after, |before|) == Some(d.(subTicks := 0))
    ensures IntRun(before + DateTimeTokens(d) + after, |before|, 7) == 7
  {
    var s := before + DateTimeTokens(d) + after;
    var i := |before|;
    assert forall k :: 0 <= k < 7 ==> s[i + k] == DateTimeTokens(d)[k];
    Dates.NewFromFields(d);
  }

  /** Reading back what Write(TimeSpan) wrote gives the span truncated to
      whole milliseconds and consumes the five fields. */
  lemma TimeSpanRoundTrip(t: int, before: seq<Token>, after: seq<Token>)
    requires Spans.InInt64(t)
    ensures TimeSpanAt(before + TimeSpanTokens(t) + after, |before|) == Some(Spans.WholeMilliseconds(t))
    ensures IntRun(before + TimeSpanTokens(t) + after, |before|, 5) == 5
  {
    var s := before + TimeSpanTokens(t) + after;
    var i := |before|;
    assert forall k :: 0 <= k < 5 ==> s[i + k] == TimeSpanTokens(t)[k];
    Spans.FieldsRoundTrip(t);
  }

  /** A stream too short for the fields gives no value. */
  lemma ShortStreamFails(s: seq<Token>, i: nat)
    requires |s| < i + 7
    ensures DateTimeAt(s, i) == None
    ensures |s| < i + 5 ==> TimeSpanAt(s, i) == None
    ensures IntRun(s, i, 7) <= |s| - i || i > |s|
  {
  }
}
