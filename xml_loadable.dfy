/** XmlLoadable: loading an object from an XML document (the root
    element, or the one node an XPath expression selects), creating a new
    object from an element, a file or a string, turning an object's text
    into indented lines, and writing it to a file behind the header.

    The XML parser and XPath evaluation are library calls: a document is
    the root element it parsed to (if any) together with the selection
    function XPath evaluation amounts to, and parsing text is a parameter
    `parse` that gives no document when the text is not well-formed. */
module XmlLoadable {
  import opened Wrappers
  import opened Text
  import opened Xml
  import opened Files

  datatype Document = Document(root: Option<Element>, select: string -> Option<Element>)

  // ---------------------------------------------------------------------
  // Root or XPath
  // ---------------------------------------------------------------------

  /** A null, empty or white-space XPath is no XPath at all. */
  function XPathOf(xpath: Option<string>): Option<string> {
    if xpath.None? || IsBlank(xpath.value) then None else xpath
  }

  /** The element FromXmlDoc hands to LoadFromXml: nothing without a
      document element; the document element itself without an XPath; the
      selected node otherwise, which may be missing. */
  function Target(doc: Document, xpath: Option<string>): Option<Element> {
    if doc.root.None? then None
    else if XPathOf(xpath).None? then doc.root
    else doc.select(XPathOf(xpath).value)
  }

  /** A document without a root element gives nothing to load, whatever
      the XPath. */
  lemma NoRootNoTarget(doc: Document, xpath: Option<string>)
    requires doc.root.None?
    ensures Target(doc, xpath).None?
  {
  }

  /** A blank XPath loads the document element, as if none were given. */
  lemma BlankXPathIsRoot(doc: Document, xpath: string)
    requires IsBlank(xpath)
    ensures Target(doc, Some(xpath)) == Target(doc, None) == doc.root
  {
  }

  /** A non-blank XPath loads the node it selects, never the root unless
      the selection gives the root. */
  lemma XPathSelects(doc: Document, xpath: string)
    requires doc.root.Some? && !IsBlank(xpath)
    ensures Target(doc, Some(xpath)) == doc.select(xpath)
  {
  }

  /** The element the instance LoadFromFile(path, xpath) loads from the
      file system: none when the file does not read as text or does not
      parse, else the document's target. */
  function FileTarget(fs: FileStore, path: string, parse: string -> Option<Document>, xpath: Option<string>): Option<Element>
    reads fs
  {
    match fs.TextFile(path)
    case None => None
    case Some(text) =>
      match parse(text)
      case None => None
      case Some(doc) => Target(doc, xpath)
  }

  // ---------------------------------------------------------------------
  // Creating a new object: FromElement, FromXmlDoc, FromXml, FromFile
  // ---------------------------------------------------------------------

  /** What `new T()` followed by LoadFromXml amounts to for one loadable
      type, on a value snapshot S of its fields: the fresh object, and the
      object after a successful load (None when LoadFromXml returns false;
      what a failed load leaves behind is discarded by every caller here,
      so it is not kept). */
  datatype Loader<!S> = Loader(blank: S, load: (S, Element) -> Option<S>)

  /** FromElement<T>(element): the loaded object, or null on failure. */
  function FromElement<S>(l: Loader<S>, e: Element): Option<S> {
    l.load(l.blank, e)
  }

  /** FromXmlDoc<T>(doc, xpath): null without a target element, otherwise
      FromElement on the target. */
  function FromXmlDoc<S>(l: Loader<S>, doc: Document, xpath: Option<string>): Option<S> {
    match Target(doc, xpath)
    case None => None
    case Some(e) => FromElement(l, e)
  }

  /** FromXml<T>(xml, xpath): null when the text does not parse. */
  function FromXml<S>(l: Loader<S>, parse: string -> Option<Document>, xml: string, xpath: Option<string>): Option<S> {
    match parse(xml)
    case None => None
    case Some(doc) => FromXmlDoc(l, doc, xpath)
  }

  /** FromFile<T>(path, xpath): null when the file cannot be read, and
      otherwise exactly what FromXml gives on the file's text. */
  function FromFile<S>(l: Loader<S>, fs: FileStore, path: string, parse: string -> Option<Document>, xpath: Option<string>): Option<S>
    reads fs
  {
    match fs.TextFile(path)
    case None => None
    case Some(text) => FromXml(l, parse, text, xpath)
  }

  /** The parser reads `text` as a document whose document element is
      `e`. */
  predicate ParsesTo(parse: string -> Option<Document>, text: string, e: Element) {
    parse(text).Some? && parse(text).value.root == Some(e)
  }

  /** The generic loaders agree with the instance one: FromFile gives an
      object exactly when there is a target element in the file and
      loading the fresh object from it succeeds. */
  lemma FromFileIsFileTarget<S>(l: Loader<S>, fs: FileStore, path: string, parse: string -> Option<Document>, xpath: Option<string>)
    ensures FromFile(l, fs, path, parse, xpath) ==
      (match FileTarget(fs, path, parse, xpath)
       case None => None
       case Some(e) => l.load(l.blank, e))
  {
  }

  // ---------------------------------------------------------------------
  // ToString(xl, indent)
  // ---------------------------------------------------------------------

  /** The lines of an object's text: CRLF turned into LF, then split on
      LF. */
  function LinesOf(text: string): (r: seq<string>)
    ensures |r| >= 1
  {
    Split(Replace(text, "\r\n", "\n"), '\n')
  }

  /** The text the StringBuilder loop holds after the first k lines, as
      written: line i, trimmed at the end, is followed by the line
      terminator only when i + i < |lines|. */
  function JoinedAsWritten(lines: seq<string>, k: nat, eol: string): string
    requires k <= |lines|
  {
    if k == 0 then ""
    else
      var line := TrimEnd(lines[k - 1]) + (if (k - 1) + (k - 1) < |lines| then eol else "");
      JoinedAsWritten(lines, k - 1, eol) + line
  }

  /** The same loop with the evidently intended guard i + 1 < |lines|: a
      terminator between consecutive lines and none after the last. */
  function Joined(lines: seq<string>, k: nat, eol: string): string
    requires k <= |lines|
  {
    if k == 0 then ""
    else
      var line := TrimEnd(lines[k - 1]) + (if (k - 1) + 1 < |lines| then eol else "");
      Joined(lines, k - 1, eol) + line
  }

  /** The static ToString(xl, indent) as written, for an object whose own
      ToString is `text`, with AppendLine's terminator `eol`. */
  method ToIndentedString(text: string, indent: nat, eol: string) returns (r: string)
    ensures r == Indent(JoinedAsWritten(LinesOf(text), |LinesOf(text)|, eol), indent)
  {
    var lines := LinesOf(text);
    var sb := "";
    var i := 0;
    while i < |lines|
      invariant 0 <= i <= |lines|
      invariant sb == JoinedAsWritten(lines, i, eol)
    {
      if i + i < |lines| {
        sb := sb + TrimEnd(lines[i]) + eol;
      } else {
        sb := sb + TrimEnd(lines[i]);
      }
      i := i + 1;
    }
    r := Indent(sb, indent);
  }

  /** string.Join of the first k lines with a one-character separator,
      built from the back. */
  lemma {:induction false} JoinSnoc(parts: seq<string>, last: string, sep: char)
    requires |parts| >= 1
    ensures Join(parts + [last], sep) == Join(parts, sep) + [sep] + last
    decreases |parts|
  {
    if |parts| == 1 {
      assert (parts + [last])[1..] == [last];
    } else {
      assert (parts + [last])[1..] == parts[1..] + [last];
      JoinSnoc(parts[1..], last, sep);
      AppendAssoc(parts[0] + [sep], Join(parts[1..], sep) + [sep], last);
    }
  }

  /** With the intended guard, lines without trailing white space are
      joined back exactly as they were split, plus a terminator while
      lines remain. */
  lemma {:induction false} JoinedIsJoin(lines: seq<string>, k: nat)
    requires 1 <= k <= |lines|
    requires forall i :: 0 <= i < |lines| ==> TrimEnd(lines[i]) == lines[i]
    ensures Joined(lines, k, "\n") == Join(lines[..k], '\n') + (if k < |lines| then "\n" else "")
    decreases k
  {
    if k == 1 {
      assert Joined(lines, 0, "\n") == "";
      assert lines[..1] == [lines[0]];
    } else {
      JoinedIsJoin(lines, k - 1);
      assert lines[..k] == lines[..k - 1] + [lines[k - 1]];
      JoinSnoc(lines[..k - 1], lines[k - 1], '\n');
    }
  }

  /** The corrected ToString(xl, indent): with the intended guard, an
      object text whose lines carry no trailing white space comes out with
      its lines intact (LF-separated, no terminator added after the last)
      before indentation. */
  function ToIndentedStringFixed(text: string, indent: nat): (r: string)
    ensures (forall p :: p in LinesOf(text) ==> TrimEnd(p) == p)
      ==> r == Indent(Replace(text, "\r\n", "\n"), indent)
  {
    var lines := LinesOf(text);
    var joined := Joined(lines, |lines|, "\n");
    assert (forall p :: p in lines ==> TrimEnd(p) == p) ==> joined == Replace(text, "\r\n", "\n") by {
      if forall p :: p in lines ==> TrimEnd(p) == p {
        forall i | 0 <= i < |lines|
          ensures TrimEnd(lines[i]) == lines[i]
        {
          assert lines[i] in lines;
        }
        JoinedIsJoin(lines, |lines|);
        assert lines[..|lines|] == lines;
        JoinSplit(Replace(text, "\r\n", "\n"), '\n');
      }
    }
    Indent(joined, indent)
  }

  /** A one-character line followed by LF splits off as one piece. */
  lemma SplitCons(c: char, rest: string)
    requires c != '\n'
    ensures Split([c, '\n'] + rest, '\n') == [[c]] + Split(rest, '\n')
  {
    var x := ['\n'] + rest;
    assert x[1..] == rest;
    var px := Split(x, '\n');
    assert px == [""] + Split(rest, '\n');
    SplitPrefix([c], x, '\n');
    assert [c] + x == [c, '\n'] + rest;
    assert [c] + px[0] == [c];
    assert px[1..] == Split(rest, '\n');
  }

  /** The four-line text the counterexample below uses. */
  lemma FourLines(t: string)
    requires t == "a\nb\nc\nd"
    ensures LinesOf(t) == ["a", "b", "c", "d"]
  {
    ReplaceAbsent(t, "\r\n", "\n");
    assert LinesOf(t) == Split(t, '\n');
    var cd := "c\nd";
    var bcd := "b\n" + cd;
    assert t == "a\n" + bcd;
    SplitCons('c', "d");
    SplitCons('b', cd);
    SplitCons('a', bcd);
    assert Split("d", '\n') == ["d"] by {
      var d := "d";
      assert d[1..] == "" && d[0] == 'd' && Split("", '\n') == [""];
      assert [d[0]] + "" == d;
    }
  }

  /** The loop as written on four short lines: the first two end in a
      terminator, the last two are run together. */
  lemma MergesLines(lines: seq<string>)
    requires lines == ["a", "b", "c", "d"]
    ensures JoinedAsWritten(lines, 4, "\n") == "a\nb\ncd"
    ensures Joined(lines, 4, "\n") == "a\nb\nc\nd"
  {
    assert TrimEnd(lines[0]) == "a" && TrimEnd(lines[1]) == "b";
    assert TrimEnd(lines[2]) == "c" && TrimEnd(lines[3]) == "d";
    assert JoinedAsWritten(lines, 1, "\n") == "a\n";
    assert JoinedAsWritten(lines, 2, "\n") == "a\nb\n";
    assert JoinedAsWritten(lines, 3, "\n") == "a\nb\nc";
    assert Joined(lines, 1, "\n") == "a\n";
    assert Joined(lines, 2, "\n") == "a\nb\n";
    assert Joined(lines, 3, "\n") == "a\nb\nc\n";
  }

  /** The i + i guard drops the breaks between the later lines: the text
      "a\nb\nc\nd" comes out as "a\nb\ncd", where the intended guard keeps
      it as it is. */
  lemma ToIndentedStringMergesLines(t: string)
    requires t == "a\nb\nc\nd"
    ensures JoinedAsWritten(LinesOf(t), |LinesOf(t)|, "\n") == "a\nb\ncd" != t
    ensures Joined(LinesOf(t), |LinesOf(t)|, "\n") == t
  {
    FourLines(t);
    MergesLines(LinesOf(t));
  }

  // ---------------------------------------------------------------------
  // ToFile
  // ---------------------------------------------------------------------

  /** ToFile(x, path, overwrite) for an object whose ToString is `text`:
      an existing file is left alone unless overwrite is set; otherwise
      the file holds the XML header, CRLF, then the text. */
  method ToFile(fs: FileStore, text: string, path: string, overwrite: bool) returns (ok: bool)
    modifies fs
    ensures path in old(fs.files) && !overwrite ==> !ok && fs.files == old(fs.files)
    ensures !(path in old(fs.files) && !overwrite) ==>
      ok && fs.files == old(fs.files)[path := Text(Header + "\r\n" + text)]
  {
    if fs.Exists(path) && !overwrite {
      return false;
    }
    fs.files := fs.files[path := Text(Header + "\r\n" + text)];
    return true;
  }

  /** What ToFile writes reads back as the header line followed by the
      object's text. */
  lemma ToFileReadsBack(fs: FileStore, text: string, path: string)
    requires path in fs.files && fs.files[path] == Text(Header + "\r\n" + text)
    ensures fs.TextFile(path) == Some(Header + "\r\n" + text)
  {
  }
}
