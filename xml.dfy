/** The XML helpers: identifier validation, tab indentation, and the
    text forms and readers of the integer vector and rectangle types.
    An element is its name, its attribute map and its child elements, as
    the loaders see it through XmlElement.HasAttribute, GetAttribute and
    GetAttributeNode. */
module Xml {
  import opened Wrappers
  import opened Text

  /** The standard XML declaration written at the top of every file. */
  const Header: string := "<?xml version=\"1.0\" encoding=\"utf-8\"?>"

  datatype Element = Element(name: string, attrs: map<string, string>, children: seq<Node>)

  /** A child node of an element: an element, or any other node the
      document keeps (a comment, text, CDATA or a processing
      instruction). */
  datatype Node = ElementNode(element: Element) | OtherNode

  predicate HasAttribute(e: Element, key: string) {
    key in e.attrs
  }

  /** XmlElement.GetAttribute: the value, or "" when there is none. */
  function GetAttribute(e: Element, key: string): string {
    if key in e.attrs then e.attrs[key] else ""
  }

  // ---------------------------------------------------------------------
  // Identifiers
  // ---------------------------------------------------------------------

  predicate IsNameStart(c: char) {
    IsLetter(c) || c == '_'
  }

  predicate IsNameChar(c: char) {
    IsLetterOrDigit(c) || c == '_'
  }

  /** The scan of IsValid from position i on. */
  function NameCharsFrom(id: string, i: nat): (r: bool)
    requires i <= |id|
    ensures r <==> forall k :: i <= k < |id| ==> IsNameChar(id[k])
    decreases |id| - i
  {
    if i == |id| then true else IsNameChar(id[i]) && NameCharsFrom(id, i + 1)
  }

  /** Xml.IsValid: not blank, a letter or '_' first, and only letters,
      digits and '_'.  The blank test never decides on its own: a first
      character that is a letter or '_' is not white space. */
  function IsValid(id: string): (r: bool)
    ensures r <==> id != [] && IsNameStart(id[0]) && forall i :: 0 <= i < |id| ==> IsNameChar(id[i])
  {
    if IsBlank(id) || !IsNameStart(id[0]) then false
    else NameCharsFrom(id, 0)
  }

  /** The name a writer uses: the given one when it is a valid identifier,
      otherwise the type name. */
  function NameOr(name: Option<string>, typeName: string): (r: string)
    requires IsValid(typeName)
    ensures IsValid(r)
    ensures name.Some? && IsValid(name.value) ==> r == name.value
    ensures name.None? || !IsValid(name.value) ==> r == typeName
  {
    if name.Some? && IsValid(name.value) then name.value else typeName
  }

  // ---------------------------------------------------------------------
  // Indentation
  // ---------------------------------------------------------------------

  /** Xml.Indent(lines, indent): line breaks normalised to LF, a run of
      tabs put after each, every LF written as CRLF, and the same tabs in
      front of everything. */
  function Indent(lines: string, n: nat): string {
    var tabs := Repeat('\t', n);
    if lines == [] then tabs
    else tabs + Expand(Replace(lines, "\r\n", "\n"), tabs)
  }

  /** The last two Replace calls of Indent. */
  function Expand(s: string, tabs: string): string {
    Replace(Replace(s, "\n", "\n" + tabs), "\n", "\r\n")
  }

  /** Reference reading of Indent's body, character by character: a CRLF
      or a lone LF becomes CRLF followed by the tabs; every other character,
      a lone CR included, is kept. */
  function BreakLines(s: string, tabs: string): string
    decreases |s|
  {
    if s == [] then []
    else if |s| >= 2 && s[0] == '\r' && s[1] == '\n' then "\r\n" + tabs + BreakLines(s[2..], tabs)
    else if s[0] == '\n' then "\r\n" + tabs + BreakLines(s[1..], tabs)
    else [s[0]] + BreakLines(s[1..], tabs)
  }

  lemma ExpandAppend(u: string, v: string, tabs: string)
    ensures Expand(u + v, tabs) == Expand(u, tabs) + Expand(v, tabs)
  {
    ReplaceCharAppend(u, v, '\n', "\n" + tabs);
    ReplaceCharAppend(Replace(u, "\n", "\n" + tabs), Replace(v, "\n", "\n" + tabs), '\n', "\r\n");
  }

  lemma ExpandChar(c: char, tabs: string)
    requires '\n' !in tabs
    ensures Expand([c], tabs) == if c == '\n' then "\r\n" + tabs else [c]
  {
    ReplaceCharStep([c], '\n', "\n" + tabs);
    assert Replace([c][1..], "\n", "\n" + tabs) == [];
    if c == '\n' {
      assert Replace([c], "\n", "\n" + tabs) == "\n" + tabs;
      ReplaceCharAppend("\n", tabs, '\n', "\r\n");
      ReplaceCharStep("\n", '\n', "\r\n");
      assert Replace("\n"[1..], "\n", "\r\n") == [];
      assert Replace("\n", "\n", "\r\n") == "\r\n";
      ReplaceAbsent(tabs, "\n", "\r\n");
    } else {
      ReplaceCharStep([c], '\n', "\r\n");
      assert Replace([c][1..], "\n", "\r\n") == [];
    }
  }

  lemma {:induction false} ExpandBreaks(s: string, tabs: string)
    requires '\n' !in tabs
    ensures Expand(Replace(s, "\r\n", "\n"), tabs) == BreakLines(s, tabs)
    decreases |s|
  {
    var crlf := "\r\n";
    if s == [] {
    } else if |s| >= 2 && s[0] == '\r' && s[1] == '\n' {
      assert s[..2] == crlf;
      ExpandBreaks(s[2..], tabs);
      ExpandAppend("\n", Replace(s[2..], crlf, "\n"), tabs);
      ExpandChar('\n', tabs);
    } else {
      if |s| >= 2 {
        assert s[..2] != crlf;
      } else {
        assert Replace(s, crlf, "\n") == s == [s[0]] + s[1..];
        assert Replace(s[1..], crlf, "\n") == [];
      }
      ExpandBreaks(s[1..], tabs);
      ExpandAppend([s[0]], Replace(s[1..], crlf, "\n"), tabs);
      ExpandChar(s[0], tabs);
    }
  }

  /** Indent puts n tabs in front and turns every LF or CRLF into CRLF
      followed by n tabs; for empty text that leaves exactly n tabs. */
  lemma IndentBreaksLines(lines: string, n: nat)
    ensures Indent(lines, n) == Repeat('\t', n) + BreakLines(lines, Repeat('\t', n))
    ensures Indent("", n) == Repeat('\t', n)
  {
    var tabs := Repeat('\t', n);
    assert '\n' !in tabs;
    if lines != [] {
      ExpandBreaks(lines, tabs);
    } else {
      assert tabs + [] == tabs;
    }
  }

  /** Text without line breaks only gets the leading tabs. */
  lemma IndentOneLine(line: string, n: nat)
    requires '\n' !in line
    ensures Indent(line, n) == Repeat('\t', n) + line
  {
    IndentBreaksLines(line, n);
    BreakLinesNoBreak(line, Repeat('\t', n));
  }

  lemma {:induction false} BreakLinesNoBreak(s: string, tabs: string)
    requires '\n' !in s
    ensures BreakLines(s, tabs) == s
    decreases |s|
  {
    if s != [] {
      assert '\n' !in s[1..];
      BreakLinesNoBreak(s[1..], tabs);
    }
  }

  // ---------------------------------------------------------------------
  // Integer vectors and rectangles
  // ---------------------------------------------------------------------

  datatype Vector2I = Vector2I(x: int, y: int)
  datatype Vector3I = Vector3I(x: int, y: int, z: int)
  datatype Rect2I = Rect2I(position: Vector2I, size: Vector2I)

  predicate Vector2IInRange(v: Vector2I) {
    InInt32(v.x) && InInt32(v.y)
  }

  predicate Vector3IInRange(v: Vector3I) {
    InInt32(v.x) && InInt32(v.y) && InInt32(v.z)
  }

  predicate Rect2IInRange(r: Rect2I) {
    Vector2IInRange(r.position) && Vector2IInRange(r.size)
  }

  /** Integers written one after the other, separated by ", ". */
  function IntList(xs: seq<int>): string
    requires |xs| >= 1
    decreases |xs|
  {
    if |xs| == 1 then IntToString(xs[0])
    else IntToString(xs[0]) + ", " + IntList(xs[1..])
  }

  /** The characters of int.ToString are a '-' or digits. */
  lemma IntTextChars(i: int)
    ensures forall k :: 0 <= k < |IntToString(i)| ==>
      IntToString(i)[k] == '-' || IsDigit(IntToString(i)[k])
  {
    var r := IntToString(i);
    if i < 0 {
      forall k | 1 <= k < |r|
        ensures IsDigit(r[k])
      {
        assert r[k] == r[1..][k - 1];
      }
    }
  }

  /** The texts of integers, one each. */
  function IntTexts(xs: seq<int>): (ts: seq<string>)
    ensures |ts| == |xs| && forall i :: 0 <= i < |xs| ==> ts[i] == IntToString(xs[i])
  {
    seq(|xs|, i requires 0 <= i < |xs| => IntToString(xs[i]))
  }

  /** Integers joined by ", " split back into their texts, one piece each. */
  lemma {:induction false} IntListSplits(xs: seq<int>)
    requires |xs| >= 1
    ensures SplitOnEntries(IntList(xs), ", ") == IntTexts(xs)
    decreases |xs|
  {
    if |xs| == 1 {
      IntListSplitsOne(xs);
    } else {
      IntListSplits(xs[1..]);
      IntListSplitsCons(xs);
    }
  }

  /** An integer's text is one piece that trimming leaves alone. */
  lemma IntTextPiece(i: int)
    ensures ',' !in IntToString(i) && IntToString(i) != [] && Trim(IntToString(i)) == IntToString(i)
  {
    IntTextChars(i);
    TrimNoOp(IntToString(i));
  }

  /** A single integer splits into its own text. */
  lemma IntListSplitsOne(xs: seq<int>)
    requires |xs| == 1
    ensures SplitOnEntries(IntList(xs), ", ") == IntTexts(xs)
  {
    var a := IntToString(xs[0]);
    IntTextPiece(xs[0]);
    SplitOnSingle(a, ", ");
    assert Entries([a]) == [a] + Entries([]);
  }

  /** The first integer's text followed by the rest's pieces. */
  lemma IntListSplitsCons(xs: seq<int>)
    requires |xs| >= 2
    requires SplitOnEntries(IntList(xs[1..]), ", ") == IntTexts(xs[1..])
    ensures SplitOnEntries(IntList(xs), ", ") == IntTexts(xs)
  {
    IntListHead(xs);
    IntTextsCons(xs);
  }

  /** The pieces of a list of two or more: the first integer's text, then
      the pieces of the rest. */
  lemma IntListHead(xs: seq<int>)
    requires |xs| >= 2
    ensures SplitOnEntries(IntList(xs), ", ") == [IntToString(xs[0])] + SplitOnEntries(IntList(xs[1..]), ", ")
  {
    var a := IntToString(xs[0]);
    IntTextPiece(xs[0]);
    var rest := IntList(xs[1..]);
    assert IntList(xs) == a + ", " + rest;
    SplitOnCons(a, rest, ", ");
    EntriesCons(a, SplitOn(rest, ", "));
  }

  /** The texts of a list are the first one's followed by the rest's. */
  lemma IntTextsCons(xs: seq<int>)
    requires |xs| >= 1
    ensures IntTexts(xs) == [IntToString(xs[0])] + IntTexts(xs[1..])
  {
    var l := IntTexts(xs);
    var r := [IntToString(xs[0])] + IntTexts(xs[1..]);
    assert |l| == |r|;
    forall i | 0 <= i < |l|
      ensures l[i] == r[i]
    {
      if i > 0 {
        assert r[i] == IntTexts(xs[1..])[i - 1];
      }
    }
  }

  /** A ", " list of Int32 values splits into one piece per value, and
      each piece parses back to its value. */
  lemma IntListRoundTrip(xs: seq<int>)
    requires |xs| >= 1
    requires forall i :: 0 <= i < |xs| ==> InInt32(xs[i])
    ensures |SplitOnEntries(IntList(xs), ", ")| == |xs|
    ensures forall i :: 0 <= i < |xs| ==> ParseInt32(SplitOnEntries(IntList(xs), ", ")[i]) == Some(xs[i])
  {
    IntListSplits(xs);
    forall i | 0 <= i < |xs|
      ensures ParseInt32(SplitOnEntries(IntList(xs), ", ")[i]) == Some(xs[i])
    {
      FormatThenParse(xs[i]);
    }
  }

  // -- Writers ------------------------------------------------------------

  /** ToNodeString(Vector2I, name, indent). */
  function NodeString2I(v: Vector2I, name: Option<string>, indent: nat): string {
    Indent("<" + NameOr(name, "Vector2I") + " X=\"" + IntToString(v.x) + "\" Y=\""
           + IntToString(v.y) + "\"/>", indent)
  }

  /** The element NodeString2I describes. */
  function NodeElement2I(v: Vector2I, name: Option<string>): Element {
    Element(NameOr(name, "Vector2I"), map["X" := IntToString(v.x), "Y" := IntToString(v.y)], [])
  }

  /** ToNodeString(Vector3I, name, indent). */
  function NodeString3I(v: Vector3I, name: Option<string>, indent: nat): string {
    Indent("<" + NameOr(name, "Vector3I") + " X=\"" + IntToString(v.x) + "\" Y=\""
           + IntToString(v.y) + "\" Z=\"" + IntToString(v.z) + "\"/>", indent)
  }

  /** The element NodeString3I describes. */
  function NodeElement3I(v: Vector3I, name: Option<string>): Element {
    Element(NameOr(name, "Vector3I"),
            map["X" := IntToString(v.x), "Y" := IntToString(v.y), "Z" := IntToString(v.z)], [])
  }

  /** The value ToAttributeString writes for a Vector2I: "x, y". */
  function Value2I(v: Vector2I): string {
    IntList([v.x, v.y])
  }

  /** The value ToAttributeString writes for a Vector3I: "x, y, z". */
  function Value3I(v: Vector3I): string {
    IntList([v.x, v.y, v.z])
  }

  /** ToAttributeString(Vector2I, name): name="x, y". */
  function AttributeString2I(v: Vector2I, name: Option<string>): string {
    NameOr(name, "Vector2I") + "=\"" + Value2I(v) + "\""
  }

  /** ToAttributeString(Vector3I, name): name="x, y, z". */
  function AttributeString3I(v: Vector3I, name: Option<string>): string {
    NameOr(name, "Vector3I") + "=\"" + Value3I(v) + "\""
  }

  /** ToAttributeString(Rect2I, name) as written: the whole attribute
      strings of position and size, names and quotes included, joined by
      ", " as the value. */
  function AttributeStringRect2I(r: Rect2I, name: Option<string>): string {
    NameOr(name, "Rect2I") + "=\"" + RectValueAsWritten(r) + "\""
  }

  function RectValueAsWritten(r: Rect2I): string {
    AttributeString2I(r.position, None) + ", " + AttributeString2I(r.size, None)
  }

  /** ToNodeString(Rect2I, name, indent) as written: the Position and Size
      values are again whole attribute strings; `newline` is
      Environment.NewLine, which AppendLine writes. */
  function NodeStringRect2I(r: Rect2I, name: Option<string>, indent: nat, newline: string): string {
    var n := NameOr(name, "Rect2I");
    Indent("<" + n + " Position=\"" + AttributeString2I(r.position, None) + "\"" + newline
           + Repeat(' ', |n| + 2) + "Size=\"" + AttributeString2I(r.size, None) + "\"/>", indent)
  }

  /** The element NodeStringRect2I describes, were its inner quotes kept
      as part of the values. */
  function NodeElementRect2IAsWritten(r: Rect2I, name: Option<string>): Element {
    Element(NameOr(name, "Rect2I"),
            map["Position" := AttributeString2I(r.position, None),
                "Size" := AttributeString2I(r.size, None)], [])
  }

  /** The rectangle value the readers accept: "x, y, w, h". */
  function ValueRect2I(r: Rect2I): string {
    IntList([r.position.x, r.position.y, r.size.x, r.size.y])
  }

  /** ToAttributeString(Rect2I, name) writing the value its reader
      accepts. */
  function AttributeStringRect2IFixed(r: Rect2I, name: Option<string>): string {
    NameOr(name, "Rect2I") + "=\"" + ValueRect2I(r) + "\""
  }

  /** ToNodeString(Rect2I, name, indent) writing Position="x, y" and
      Size="w, h". */
  function NodeStringRect2IFixed(r: Rect2I, name: Option<string>, indent: nat, newline: string): string {
    var n := NameOr(name, "Rect2I");
    Indent("<" + n + " Position=\"" + Value2I(r.position) + "\"" + newline
           + Repeat(' ', |n| + 2) + "Size=\"" + Value2I(r.size) + "\"/>", indent)
  }

  /** The element NodeStringRect2IFixed describes. */
  function NodeElementRect2I(r: Rect2I, name: Option<string>): Element {
    Element(NameOr(name, "Rect2I"),
            map["Position" := Value2I(r.position), "Size" := Value2I(r.size)], [])
  }

  // -- Readers ------------------------------------------------------------

  /** ToVec2I(XmlElement): None when X or Y is missing or does not parse. */
  function ToVec2I(e: Element): (r: Option<Vector2I>)
    ensures r.Some? ==> Vector2IInRange(r.value)
    ensures r.Some? <==> (HasAttribute(e, "X") && HasAttribute(e, "Y")
      && ParseInt32(e.attrs["X"]).Some? && ParseInt32(e.attrs["Y"]).Some?)
  {
    if !HasAttribute(e, "X") || !HasAttribute(e, "Y") then None
    else
      var x :- ParseInt32(GetAttribute(e, "X"));
      var y :- ParseInt32(GetAttribute(e, "Y"));
      Some(Vector2I(x, y))
  }

  /** ToVec3I(XmlElement): None when X, Y or Z is missing or does not
      parse. */
  function ToVec3I(e: Element): (r: Option<Vector3I>)
    ensures r.Some? ==> Vector3IInRange(r.value)
    ensures r.Some? <==> (HasAttribute(e, "X") && HasAttribute(e, "Y") && HasAttribute(e, "Z")
      && ParseInt32(e.attrs["X"]).Some? && ParseInt32(e.attrs["Y"]).Some?
      && ParseInt32(e.attrs["Z"]).Some?)
  {
    if !HasAttribute(e, "X") || !HasAttribute(e, "Y") || !HasAttribute(e, "Z") then None
    else
      var x :- ParseInt32(GetAttribute(e, "X"));
      var y :- ParseInt32(GetAttribute(e, "Y"));
      var z :- ParseInt32(GetAttribute(e, "Z"));
      Some(Vector3I(x, y, z))
  }

  /** ToVec2I(XmlAttribute): the value split on ", " must give exactly two
      integers. */
  function ToVec2IAttr(value: string): (r: Option<Vector2I>)
    ensures r.Some? ==> Vector2IInRange(r.value)
    ensures |SplitOnEntries(value, ", ")| != 2 ==> r == None
  {
    var args := SplitOnEntries(value, ", ");
    if |args| != 2 then None
    else
      var x :- ParseInt32(args[0]);
      var y :- ParseInt32(args[1]);
      Some(Vector2I(x, y))
  }

  /** ToVec3I(XmlAttribute): exactly three integers. */
  function ToVec3IAttr(value: string): (r: Option<Vector3I>)
    ensures r.Some? ==> Vector3IInRange(r.value)
    ensures |SplitOnEntries(value, ", ")| != 3 ==> r == None
  {
    var args := SplitOnEntries(value, ", ");
    if |args| != 3 then None
    else
      var x :- ParseInt32(args[0]);
      var y :- ParseInt32(args[1]);
      var z :- ParseInt32(args[2]);
      Some(Vector3I(x, y, z))
  }

  /** ToRect2I(XmlAttribute): exactly four integers. */
  function ToRect2IAttr(value: string): (r: Option<Rect2I>)
    ensures r.Some? ==> Rect2IInRange(r.value)
    ensures |SplitOnEntries(value, ", ")| != 4 ==> r == None
  {
    var args := SplitOnEntries(value, ", ");
    if |args| != 4 then None
    else
      var x :- ParseInt32(args[0]);
      var y :- ParseInt32(args[1]);
      var w :- ParseInt32(args[2]);
      var h :- ParseInt32(args[3]);
      Some(Rect2I(Vector2I(x, y), Vector2I(w, h)))
  }

  /** ToRect2I(XmlElement): the Position and Size attributes, each read by
      ToVec2I(XmlAttribute). */
  function ToRect2I(e: Element): (r: Option<Rect2I>)
    ensures r.Some? ==> Rect2IInRange(r.value)
    ensures r.Some? ==> HasAttribute(e, "Position") && HasAttribute(e, "Size")
    ensures r.Some? ==> (ToVec2IAttr(e.attrs["Position"]) == Some(r.value.position)
      && ToVec2IAttr(e.attrs["Size"]) == Some(r.value.size))
  {
    if !HasAttribute(e, "Position") || !HasAttribute(e, "Size") then None
    else
      var pos :- ToVec2IAttr(e.attrs["Position"]);
      var size :- ToVec2IAttr(e.attrs["Size"]);
      Some(Rect2I(pos, size))
  }

  // -- Round trips --------------------------------------------------------

  /** ToVec2I reads back the X and Y attributes ToNodeString writes. */
  lemma Vec2INodeRoundTrip(v: Vector2I, name: Option<string>)
    requires Vector2IInRange(v)
    ensures ToVec2I(NodeElement2I(v, name)) == Some(v)
  {
    var e := NodeElement2I(v, name);
    assert HasAttribute(e, "X") && e.attrs["X"] == IntToString(v.x);
    assert HasAttribute(e, "Y") && e.attrs["Y"] == IntToString(v.y);
    FormatThenParse(v.x);
    FormatThenParse(v.y);
  }

  /** ToVec3I reads back the X, Y and Z attributes ToNodeString writes. */
  lemma Vec3INodeRoundTrip(v: Vector3I, name: Option<string>)
    requires Vector3IInRange(v)
    ensures ToVec3I(NodeElement3I(v, name)) == Some(v)
  {
    var e := NodeElement3I(v, name);
    assert e.attrs["X"] == IntToString(v.x);
    assert e.attrs["Y"] == IntToString(v.y);
    assert e.attrs["Z"] == IntToString(v.z);
    FormatThenParse(v.x);
    FormatThenParse(v.y);
    FormatThenParse(v.z);
  }

  /** int.ToString never writes a line break. */
  lemma IntTextOneLine(i: int)
    ensures '\n' !in IntToString(i)
  {
    IntTextChars(i);
  }

  /** A valid name holds no line break. */
  lemma NameOneLine(n: string)
    requires IsValid(n)
    ensures '\n' !in n
  {
    assert forall i :: 0 <= i < |n| ==> IsNameChar(n[i]);
  }

  /** The node text is one line: indenting only puts tabs in front. */
  lemma NodeString2IShape(v: Vector2I, name: Option<string>, indent: nat)
    ensures NodeString2I(v, name, indent) == Repeat('\t', indent) + ("<" + NameOr(name, "Vector2I")
      + " X=\"" + IntToString(v.x) + "\" Y=\"" + IntToString(v.y) + "\"/>")
  {
    var n, a, b := NameOr(name, "Vector2I"), IntToString(v.x), IntToString(v.y);
    NameOneLine(n);
    IntTextOneLine(v.x);
    IntTextOneLine(v.y);
    var line := "<" + n + " X=\"" + a + "\" Y=\"" + b + "\"/>";
    assert '\n' !in line;
    IndentOneLine(line, indent);
  }

  /** ToVec2I(XmlAttribute) reads back the value ToAttributeString writes. */
  lemma Vec2IAttributeRoundTrip(v: Vector2I)
    requires Vector2IInRange(v)
    ensures ToVec2IAttr(Value2I(v)) == Some(v)
  {
    IntListRoundTrip([v.x, v.y]);
  }

  /** ToVec3I(XmlAttribute) reads back the value ToAttributeString writes. */
  lemma Vec3IAttributeRoundTrip(v: Vector3I)
    requires Vector3IInRange(v)
    ensures ToVec3IAttr(Value3I(v)) == Some(v)
  {
    IntListRoundTrip([v.x, v.y, v.z]);
  }

  /** Text that starts with a letter and holds no ',' before the rest
      gives a first piece that is not an integer. */
  lemma NamedTextFails(tn: string, rest: string)
    requires tn != [] && IsLetter(tn[0]) && ',' !in tn
    ensures SplitOnEntries(tn + rest, ", ") != []
    ensures ParseInt32(SplitOnEntries(tn + rest, ", ")[0]) == None
  {
    var x := tn + SplitOn(rest, ", ")[0];
    NamedFirstEntry(tn, rest);
    LetterTextFails(x);
  }

  /** The first entry of text starting with a piece that holds no ','. */
  lemma NamedFirstEntry(tn: string, rest: string)
    requires tn != [] && IsLetter(tn[0]) && ',' !in tn
    ensures var x := tn + SplitOn(rest, ", ")[0];
      SplitOnEntries(tn + rest, ", ") == [Trim(x)] + Entries(SplitOn(rest, ", ")[1..])
  {
    SplitOnPrefix(tn, rest, ", ");
    var ps := SplitOn(rest, ", ");
    var x := tn + ps[0];
    assert x[0] == tn[0];
    TrimKeepsFirst(x);
    assert ([x] + ps[1..])[1..] == ps[1..];
  }

  /** Text that starts with a letter does not read as an integer. */
  lemma LetterTextFails(x: string)
    requires x != [] && IsLetter(x[0])
    ensures Trim(x) != [] && ParseInt32(Trim(x)) == None
  {
    TrimKeepsFirst(x);
    var t := Trim(x);
    TrimNoOp(t);
    assert !AllDigits(t) by { assert !IsDigit(t[0]); }
  }

  /** What ToAttributeString(Vector2I) returns starts with its type name. */
  lemma AttributeString2IStartsWithName(v: Vector2I, rest: string)
    ensures AttributeString2I(v, None) + rest
      == "Vector2I" + ("=\"" + Value2I(v) + "\"" + rest)
  {
  }

  /** ToRect2I(XmlAttribute) cannot read what ToAttributeString(Rect2I)
      writes: the first of the four pieces is `Vector2I="x`. */
  lemma RectAttributeUnreadable(r: Rect2I)
    ensures ToRect2IAttr(RectValueAsWritten(r)) == None
  {
    var rest := ", " + AttributeString2I(r.size, None);
    var tail := "=\"" + Value2I(r.position) + "\"" + rest;
    AttributeString2IStartsWithName(r.position, rest);
    assert RectValueAsWritten(r) == "Vector2I" + tail;
    NamedTextFails("Vector2I", tail);
  }

  /** ToRect2I(XmlElement) cannot read the Position that
      ToNodeString(Rect2I) writes: it is a whole `Vector2I="x, y"`. */
  lemma RectNodeUnreadable(r: Rect2I, name: Option<string>)
    ensures ToRect2I(NodeElementRect2IAsWritten(r, name)) == None
  {
    AttributeString2IStartsWithName(r.position, "");
    NamedTextFails("Vector2I", "=\"" + Value2I(r.position) + "\"" + "");
    assert AttributeString2I(r.position, None) + "" == AttributeString2I(r.position, None);
    assert ToVec2IAttr(AttributeString2I(r.position, None)) == None;
  }

  /** The corrected attribute value "x, y, w, h" reads back. */
  lemma RectAttributeRoundTrip(r: Rect2I)
    requires Rect2IInRange(r)
    ensures ToRect2IAttr(ValueRect2I(r)) == Some(r)
  {
    IntListRoundTrip([r.position.x, r.position.y, r.size.x, r.size.y]);
  }

  /** The corrected Position and Size values read back. */
  lemma RectNodeRoundTrip(r: Rect2I, name: Option<string>)
    requires Rect2IInRange(r)
    ensures ToRect2I(NodeElementRect2I(r, name)) == Some(r)
  {
    var e := NodeElementRect2I(r, name);
    assert HasAttribute(e, "Position") && e.attrs["Position"] == Value2I(r.position);
    assert HasAttribute(e, "Size") && e.attrs["Size"] == Value2I(r.size);
    Vec2IAttributeRoundTrip(r.position);
    Vec2IAttributeRoundTrip(r.size);
  }
}
