/** StringTools.Indent: a run of tabs in front of the text and after
    every line feed in it. */
module StringTools {
  import opened Text

  /** Indent(text, indent): the text itself for a count of zero or less;
      otherwise `indent` tabs, then the text with each LF followed by the
      same tabs (IndentMeaning). */
  function Indent(text: string, indent: int): string {
    if indent <= 0 then text
    else
      var tabs := Repeat('\t', indent);
      tabs + Replace(text, "\n", "\n" + tabs)
  }

  /** Nothing but tabs is added: the length grows by the tabs and nothing
      more, and deleting the tabs gives the text back. */
  lemma IndentMeaning(text: string, indent: int)
    ensures indent <= 0 ==> Indent(text, indent) == text
    ensures indent > 0 ==> |Indent(text, indent)| == |text| + indent + indent * Count(text, '\n')
    ensures indent > 0 ==> var r := Indent(text, indent);
      r[..indent] == Repeat('\t', indent) && Unindent(r, indent) == text
  {
    if indent > 0 {
      var tabs := Repeat('\t', indent);
      var r := Indent(text, indent);
      assert |tabs| == indent;
      assert r[..indent] == tabs && r[indent..] == Replace(text, "\n", "\n" + tabs);
      assert |r| == |text| + indent + indent * Count(text, '\n') by {
        ReplaceLength(text, tabs);
      }
      assert Unindent(r, indent) == text by {
        RemoveInserted(text, tabs);
      }
    }
  }

  /** Each LF followed by `tabs` becomes a bare LF again; every other
      character is kept. */
  function RemoveTabs(s: string, tabs: string): string
    decreases |s|
  {
    if s == [] then []
    else if s[0] == '\n' && |s| > |tabs| && s[1..|tabs| + 1] == tabs then "\n" + RemoveTabs(s[|tabs| + 1..], tabs)
    else [s[0]] + RemoveTabs(s[1..], tabs)
  }

  /** The inverse of Indent for a positive count: drop the leading tabs
      and the tabs after every LF. */
  function Unindent(s: string, indent: nat): string {
    if |s| < indent then s else RemoveTabs(s[indent..], Repeat('\t', indent))
  }

  /** Every LF replaced by LF and tabs makes the text longer by the tabs,
      once per LF. */
  lemma {:induction false} ReplaceLength(text: string, tabs: string)
    ensures |Replace(text, "\n", "\n" + tabs)| == |text| + |tabs| * Count(text, '\n')
    decreases |text|
  {
    if text != [] {
      ReplaceCharStep(text, '\n', "\n" + tabs);
      ReplaceLength(text[1..], tabs);
      var here := if text[0] == '\n' then 1 else 0;
      var later := Count(text[1..], '\n');
      assert Count(text, '\n') == here + later;
      assert |tabs| * (here + later) == |tabs| * here + |tabs| * later;
    }
  }

  /** Removing the tabs after each LF undoes their insertion, for tabs that
      contain no LF. */
  lemma {:induction false} RemoveInserted(text: string, tabs: string)
    requires '\n' !in tabs
    ensures RemoveTabs(Replace(text, "\n", "\n" + tabs), tabs) == text
    decreases |text|
  {
    if text != [] {
      var rest := Replace(text[1..], "\n", "\n" + tabs);
      ReplaceCharStep(text, '\n', "\n" + tabs);
      RemoveInserted(text[1..], tabs);
      var s := Replace(text, "\n", "\n" + tabs);
      if text[0] == '\n' {
        assert s == "\n" + tabs + rest;
        assert s[1..|tabs| + 1] == tabs;
        assert s[|tabs| + 1..] == rest;
      } else {
        assert s == [text[0]] + rest;
        assert s[1..] == rest;
      }
    }
  }

  /** A carriage return is an ordinary character to Indent: a CRLF line
      break keeps its CR, and the tabs go after the LF. */
  lemma KeepsCarriageReturn(rest: string, tabs: string)
    ensures Replace("\r\n" + rest, "\n", "\n" + tabs) == "\r\n" + tabs + Replace(rest, "\n", "\n" + tabs)
  {
    var s := "\r\n" + rest;
    ReplaceCharStep(s, '\n', "\n" + tabs);
    assert s[0] == '\r' && s[1..] == "\n" + rest;
    ReplaceCharStep(s[1..], '\n', "\n" + tabs);
    assert s[1..][1..] == rest;
  }
}
