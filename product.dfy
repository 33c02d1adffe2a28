/** Product: a named item with a lifetime, read from and written to an
    XML element with Name and Lifetime attributes, whose expiration is the
    current instant plus the lifetime clipped to the business hours. */
module Products {
  import opened Wrappers
  import opened Text
  import opened Xml
  import opened Dates
  import opened OpenTimes
  import opened Schedule
  import Spans
  import XmlLoadable

  /** TimeSpan.ToString and TimeSpan.Parse on spans held as ticks: a
      library pair, given as a parameter. */
  datatype SpanText = SpanText(format: int -> string, parse: string -> Option<int>)

  /** The properties of the pair the round trips rely on: every span
      formats to text that parses back to it, and the text has no quote
      and no line break. */
  ghost predicate Faithful(st: SpanText) {
    forall t {:trigger st.format(t)} :: Spans.InInt64(t) ==>
      st.parse(st.format(t)) == Some(t) && '"' !in st.format(t) && '\n' !in st.format(t)
  }

  /** A product's two properties, as values. */
  datatype Record = Record(name: string, lifetime: int)

  /** TimeSpan.FromHours(24), the default lifetime, in ticks. */
  const DefaultLifetime: int := 864_000_000_000

  /** The default lifetime is 24 hours. */
  lemma DefaultLifetimeIsADay()
    ensures DefaultLifetime == Spans.FromHours(24)
    ensures Spans.Days(DefaultLifetime) == 1 && Spans.Hours(DefaultLifetime) == 0
  {
  }

  /** IsValid: a name that is not blank and a positive lifetime. */
  predicate ValidRecord(r: Record) {
    |Trim(r.name)| > 0 && r.lifetime > 0
  }

  datatype RecordLoad = RecordLoad(ok: bool, record: Record)

  /** LoadFromXml on a product holding `r`: both attributes are required
      before anything is assigned; Name is then assigned before Lifetime is
      parsed, so a Lifetime that does not parse leaves the new Name behind. */
  function LoadRecord(e: Element, st: SpanText, r: Record): (res: RecordLoad)
    ensures !HasAttribute(e, "Name") || !HasAttribute(e, "Lifetime") ==> res == RecordLoad(false, r)
    ensures HasAttribute(e, "Name") && HasAttribute(e, "Lifetime") ==>
      res.record.name == e.attrs["Name"]
      && (res.ok <==> st.parse(e.attrs["Lifetime"]).Some?)
      && res.record.lifetime == (if res.ok then st.parse(e.attrs["Lifetime"]).value else r.lifetime)
  {
    if !HasAttribute(e, "Name") || !HasAttribute(e, "Lifetime") then RecordLoad(false, r)
    else
      var named := r.(name := GetAttribute(e, "Name"));
      match st.parse(GetAttribute(e, "Lifetime"))
      case None => RecordLoad(false, named)
      case Some(t) => RecordLoad(true, named.(lifetime := t))
  }

  /** The element ToString describes. */
  function RecordElement(r: Record, st: SpanText): Element {
    Element("Product", map["Name" := r.name, "Lifetime" := st.format(r.lifetime)], [])
  }

  /** ToString: `<Product Name="…"`, the line terminator, then Lifetime
      lined up under Name by "Product".Length + 2 spaces. */
  function RecordText(r: Record, st: SpanText, newline: string): string {
    "<Product Name=\"" + r.name + "\"" + newline
    + Repeat(' ', |"Product"| + 2) + "Lifetime=\"" + st.format(r.lifetime) + "\"/>"
  }

  /** Loading the element ToString describes restores both properties,
      whatever the product held before. */
  lemma RecordRoundTrip(r: Record, st: SpanText, before: Record)
    requires Faithful(st) && Spans.InInt64(r.lifetime)
    ensures LoadRecord(RecordElement(r, st), st, before) == RecordLoad(true, r)
  {
    assert st.parse(st.format(r.lifetime)) == Some(r.lifetime);
  }

  /** LoadFromXml as the static loaders of XmlLoadable call it: the
      product read from the element, or nothing when the load fails. */
  function LoadedRecord(st: SpanText): (f: (Record, Element) -> Option<Record>)
    ensures forall r, e :: f(r, e).Some? <==> LoadRecord(e, st, r).ok
    ensures forall r, e :: f(r, e).Some? ==> f(r, e).value == LoadRecord(e, st, r).record
  {
    (r: Record, e: Element) => var l := LoadRecord(e, st, r); if l.ok then Some(l.record) else None
  }

  /** Product as a type FromElement<Product> and FromXml<Product> create:
      new Product(), then LoadFromXml. */
  function ProductLoader(st: SpanText): XmlLoadable.Loader<Record> {
    XmlLoadable.Loader(Record("", DefaultLifetime), LoadedRecord(st))
  }

  /** FromXml<Product> on ToString's text gives the product back, with no
      XPath or a blank one, given a parser that reads the text as the
      element ToString describes. */
  lemma ProductFromXmlRoundTrip(r: Record, st: SpanText, newline: string,
                                parse: string -> Option<XmlLoadable.Document>, xpath: Option<string>)
    requires Faithful(st) && Spans.InInt64(r.lifetime)
    requires XmlLoadable.ParsesTo(parse, RecordText(r, st, newline), RecordElement(r, st))
    requires xpath.None? || IsBlank(xpath.value)
    ensures XmlLoadable.FromXml(ProductLoader(st), parse, RecordText(r, st, newline), xpath) == Some(r)
  {
    RecordRoundTrip(r, st, Record("", DefaultLifetime));
    assert XmlLoadable.Target(parse(RecordText(r, st, newline)).value, xpath) == Some(RecordElement(r, st));
  }

  /** FromElement<Product> gives null for an element without a Name or a
      Lifetime, or whose Lifetime does not parse. */
  lemma ProductFromElementRefuses(e: Element, st: SpanText)
    requires !HasAttribute(e, "Name") || !HasAttribute(e, "Lifetime") || st.parse(e.attrs["Lifetime"]).None?
    ensures XmlLoadable.FromElement(ProductLoader(st), e).None?
  {
    assert !LoadRecord(e, st, Record("", DefaultLifetime)).ok;
  }

  /** With LF as terminator and a one-line name, ToString has two lines,
      and the Lifetime attribute starts in the column of the Name one. */
  lemma RecordTextLines(r: Record, st: SpanText)
    requires Faithful(st) && Spans.InInt64(r.lifetime) && '\n' !in r.name
    ensures var lines := Split(RecordText(r, st, "\n"), '\n');
      |lines| == 2
      && lines[0] == "<Product Name=\"" + r.name + "\""
      && lines[1] == "         Lifetime=\"" + st.format(r.lifetime) + "\"/>"
      && |"<Product "| == 9 && lines[1][..9] == Repeat(' ', 9)
  {
    var first := "<Product Name=\"" + r.name + "\"";
    var second := "         Lifetime=\"" + st.format(r.lifetime) + "\"/>";
    RecordTextJoined(r, st);
    SplitTwoLines(first, second);
    assert second[..9] == Repeat(' ', 9);
  }

  /** ToString with LF: the Name line, LF, then the Lifetime line indented
      by nine spaces; neither line holds a line feed. */
  lemma RecordTextJoined(r: Record, st: SpanText)
    requires Faithful(st) && Spans.InInt64(r.lifetime) && '\n' !in r.name
    ensures var first := "<Product Name=\"" + r.name + "\"";
      var second := "         Lifetime=\"" + st.format(r.lifetime) + "\"/>";
      RecordText(r, st, "\n") == first + "\n" + second && '\n' !in first && '\n' !in second
  {
    var first := "<Product Name=\"" + r.name + "\"";
    var second := "         Lifetime=\"" + st.format(r.lifetime) + "\"/>";
    assert Repeat(' ', |"Product"| + 2) == "         ";
    assert '\n' !in first;
    assert '\n' !in second;
  }

  /** Two lines joined by LF split back into those two lines. */
  lemma SplitTwoLines(first: string, second: string)
    requires '\n' !in first && '\n' !in second
    ensures Split(first + "\n" + second, '\n') == [first, second]
  {
    assert Join([first, second], '\n') == first + "\n" + second;
    SplitJoin([first, second], '\n');
  }

  /** A product object. */
  class Product {
    var name: string
    var lifetime: int

    function Value(): Record
      reads this
    {
      Record(name, lifetime)
    }

    /** new Product(): an empty name and a lifetime of 24 hours. */
    constructor ()
      ensures Value() == Record("", DefaultLifetime)
    {
      name := "";
      lifetime := DefaultLifetime;
    }

    /** new Product(name, lifetime): the lifetime defaults to 24 hours. */
    constructor Named(name: string, lifetime: Option<int>)
      ensures Value() == Record(name, if lifetime.Some? then lifetime.value else DefaultLifetime)
    {
      this.name := name;
      this.lifetime := if lifetime.Some? then lifetime.value else DefaultLifetime;
    }

    /** new Product(prod): a copy of the two properties. */
    constructor Copy(prod: Product)
      ensures Value() == prod.Value()
    {
      name := prod.name;
      lifetime := prod.lifetime;
    }

    /** IsValid. */
    predicate IsValid()
      reads this
    {
      ValidRecord(Value())
    }

    /** GetExpiration(): now plus the lifetime, clipped to the opening
        hours; None where the sum leaves the DateTime range or clipping
        has no previous day (both throw). */
    function GetExpiration(hours: OpenHours, now: DateTime): (r: Option<DateTime>)
      reads this, hours, hours.times, hours.Slots(), hours.Clocks()
      requires hours.Valid() && Dates.Valid(now)
      ensures Add(now, lifetime).None? ==> r.None?
      ensures r.Some? ==> Dates.Valid(r.value) && Ticks(r.value) <= Ticks(now) + lifetime
      ensures Add(now, lifetime).Some? ==> r == Clip(hours.Windows(), Add(now, lifetime).value)
    {
      match Add(now, lifetime)
      case None => None
      case Some(t) =>
        hours.ValidFits();
        ClipNeverLater(hours.Windows(), t);
        hours.ClipToOpenHours(t)
    }

    /** LoadFromXml(element). */
    method LoadFromXml(e: Element, st: SpanText) returns (ok: bool)
      modifies this
      ensures RecordLoad(ok, Value()) == LoadRecord(e, st, old(Value()))
    {
      if !HasAttribute(e, "Name") || !HasAttribute(e, "Lifetime") {
        return false;
      }
      name := GetAttribute(e, "Name");
      var t := st.parse(GetAttribute(e, "Lifetime"));
      if t.None? {
        return false;
      }
      lifetime := t.value;
      return true;
    }

    /** ToString(). */
    function ToString(st: SpanText, newline: string): string
      reads this
    {
      RecordText(Value(), st, newline)
    }

    /** Clone(): a new product with the same two properties. */
    method Clone() returns (p: Product)
      ensures fresh(p) && p != this && p.Value() == Value()
    {
      p := new Product.Copy(this);
    }
  }

  /** On a day without restrictions the expiration is exactly the
      instant plus the lifetime. */
  lemma ExpirationUnrestricted(p: Product, hours: OpenHours, now: DateTime)
    requires hours.Valid() && Dates.Valid(now) && Add(now, p.lifetime).Some?
    requires Unrestricted(hours.Windows()[DayOfWeek(Add(now, p.lifetime).value)])
    ensures p.GetExpiration(hours, now) == Add(now, p.lifetime)
  {
    hours.ValidFits();
    ClipUnrestricted(hours.Windows(), Add(now, p.lifetime).value);
  }

  /** A new product is invalid until it is named; a named product with the
      default lifetime is valid exactly when its name is not blank. */
  lemma NamedValidity(name: string)
    ensures ValidRecord(Record(name, DefaultLifetime)) <==> !IsBlank(name)
  {
    assert DefaultLifetime > 0;
  }
}
