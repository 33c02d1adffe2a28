/** The .NET string and character primitives the core relies on:
    character classes, Trim, Split with the TrimEntries and
    RemoveEmptyEntries options, Replace, ToLower, and decimal Int32
    formatting and parsing (int.ToString and int.Parse with the
    invariant culture).  Character classification is the ASCII part of the
    Unicode categories .NET uses. */
module Text {
  import opened Wrappers

  // ---------------------------------------------------------------------
  // Character classes
  // ---------------------------------------------------------------------

  /** char.IsWhiteSpace: tab, line feed, vertical tab, form feed, carriage
      return and space. */
  predicate IsWhiteSpace(c: char) {
    c == ' ' || '\t' <= c <= '\r'
  }

  predicate IsLetter(c: char) {
    'A' <= c <= 'Z' || 'a' <= c <= 'z'
  }

  predicate IsDigit(c: char) {
    '0' <= c <= '9'
  }

  predicate IsLetterOrDigit(c: char) {
    IsLetter(c) || IsDigit(c)
  }

  /** char.IsPunctuation: the ASCII members of the Unicode punctuation
      categories (connector, dash, open, close, other). */
  predicate IsPunctuation(c: char) {
    '!' <= c <= '#' || '%' <= c <= '*' || ',' <= c <= '/' || ':' <= c <= ';'
    || '?' <= c <= '@' || '[' <= c <= ']' || c == '_' || c == '{' || c == '}'
  }

  /** char.IsSymbol: the ASCII members of the Unicode symbol categories
      (math, currency, modifier). */
  predicate IsSymbol(c: char) {
    c == '$' || c == '+' || '<' <= c <= '>' || c == '^' || c == '`' || c == '|' || c == '~'
  }

  /** A letter, digit, punctuation mark or symbol is never white space. */
  lemma VisibleIsNotWhiteSpace(c: char)
    requires IsLetterOrDigit(c) || IsPunctuation(c) || IsSymbol(c)
    ensures !IsWhiteSpace(c)
  {
  }

  /** char.ToLowerInvariant on the ASCII range. */
  function ToLowerChar(c: char): (r: char)
    ensures 'A' <= c <= 'Z' ==> r as int == c as int + 32
    ensures !('A' <= c <= 'Z') ==> r == c
  {
    if 'A' <= c <= 'Z' then (c as int + 32) as char else c
  }

  /** string.ToLower: every character lower-cased, length kept. */
  function ToLower(s: string): (r: string)
    ensures |r| == |s|
    ensures forall i :: 0 <= i < |s| ==> r[i] == ToLowerChar(s[i])
  {
    seq(|s|, i requires 0 <= i < |s| => ToLowerChar(s[i]))
  }

  // ---------------------------------------------------------------------
  // Trimming and blank strings
  // ---------------------------------------------------------------------

  /** string.IsNullOrWhiteSpace for a non-null string. */
  predicate IsBlank(s: string) {
    forall i :: 0 <= i < |s| ==> IsWhiteSpace(s[i])
  }

  /** string.TrimStart(): drops the leading white space and nothing else. */
  function TrimStart(s: string): (r: string)
    ensures |r| <= |s| && r == s[|s| - |r|..]
    ensures r == [] || !IsWhiteSpace(r[0])
    ensures forall i :: 0 <= i < |s| - |r| ==> IsWhiteSpace(s[i])
    decreases |s|
  {
    if |s| > 0 && IsWhiteSpace(s[0]) then TrimStart(s[1..]) else s
  }

  /** string.TrimEnd(): drops the trailing white space and nothing else. */
  function TrimEnd(s: string): (r: string)
    ensures |r| <= |s| && r == s[..|r|]
    ensures r == [] || !IsWhiteSpace(r[|r| - 1])
    ensures forall i :: |r| <= i < |s| ==> IsWhiteSpace(s[i])
    decreases |s|
  {
    if |s| > 0 && IsWhiteSpace(s[|s| - 1]) then TrimEnd(s[..|s| - 1]) else s
  }

  /** string.Trim(): empty exactly for blank strings, and otherwise starts
      and ends with a character that is not white space. */
  function Trim(s: string): (r: string)
    ensures |r| <= |s|
    ensures r == [] <==> IsBlank(s)
    ensures r != [] ==> !IsWhiteSpace(r[0]) && !IsWhiteSpace(r[|r| - 1])
  {
    var a := TrimStart(s);
    var r := TrimEnd(a);
    assert a == [] || !IsWhiteSpace(a[0]);
    assert r == [] ==> a == [];
    assert r != [] ==> r[0] == a[0];
    r
  }

  /** A string that neither starts nor ends with white space is its own
      trimmed form. */
  lemma TrimNoOp(s: string)
    requires s == [] || (!IsWhiteSpace(s[0]) && !IsWhiteSpace(s[|s| - 1]))
    ensures Trim(s) == s
  {
  }

  /** Trimming keeps a first character that is not white space. */
  lemma TrimKeepsFirst(s: string)
    requires s != [] && !IsWhiteSpace(s[0])
    ensures Trim(s) != [] && Trim(s)[0] == s[0]
  {
    assert TrimStart(s) == s;
    assert !IsBlank(s);
  }

  /** Concatenation re-associates. */
  lemma AppendAssoc<T>(x: seq<T>, y: seq<T>, z: seq<T>)
    ensures x + y + z == x + (y + z)
  {
  }

  /** One blank in front of trimmed text is trimmed away. */
  lemma TrimSpaceBefore(s: string)
    requires s != [] && !IsWhiteSpace(s[0]) && !IsWhiteSpace(s[|s| - 1])
    ensures Trim(" " + s) == s
  {
    assert (" " + s)[1..] == s;
    assert TrimStart(" " + s) == TrimStart(s);
  }

  /** White space needs no trimming on the left of text that is already
      trimmed there. */
  lemma TrimStartAppend(s: string, t: string)
    requires s != [] && !IsWhiteSpace(s[0])
    ensures TrimStart(s + t) == s + t
  {
  }

  // ---------------------------------------------------------------------
  // Splitting on one character
  // ---------------------------------------------------------------------

  /** string.Split(char) with no options: the pieces between the
      separators, one more piece than there are separators. */
  function Split(s: string, sep: char): (parts: seq<string>)
    ensures |parts| >= 1
    ensures forall p :: p in parts ==> sep !in p
    decreases |s|
  {
    if |s| == 0 then [""]
    else
      var rest := Split(s[1..], sep);
      if s[0] == sep then [""] + rest
      else [[s[0]] + rest[0]] + rest[1..]
  }

  /** string.Join(char, parts), the inverse of Split. */
  function Join(parts: seq<string>, sep: char): string
    requires |parts| >= 1
    decreases |parts|
  {
    if |parts| == 1 then parts[0] else parts[0] + [sep] + Join(parts[1..], sep)
  }

  /** Splitting loses nothing: joining the pieces again gives the input. */
  lemma {:induction false} JoinSplit(s: string, sep: char)
    ensures Join(Split(s, sep), sep) == s
    decreases |s|
  {
    if |s| > 0 {
      var rest := Split(s[1..], sep);
      JoinSplit(s[1..], sep);
      if s[0] == sep {
        assert Split(s, sep) == [""] + rest;
        assert Join(Split(s, sep), sep) == "" + [sep] + Join(rest, sep);
        assert s == [s[0]] + s[1..];
      } else {
        var parts := Split(s, sep);
        assert parts == [[s[0]] + rest[0]] + rest[1..];
        if |rest| == 1 {
          assert Join(parts, sep) == [s[0]] + rest[0];
        } else {
          assert parts[1..] == rest[1..];
          assert Join(parts, sep) == [s[0]] + rest[0] + [sep] + Join(rest[1..], sep);
        }
        assert s == [s[0]] + s[1..];
      }
    }
  }

  /** A prefix free of the separator joins the first piece. */
  lemma {:induction false} SplitPrefix(a: string, s: string, sep: char)
    requires sep !in a
    ensures Split(a + s, sep) == [a + Split(s, sep)[0]] + Split(s, sep)[1..]
    decreases |a|
  {
    if a != [] {
      SplitPrefix(a[1..], s, sep);
      assert (a + s)[1..] == a[1..] + s;
      assert (a + s)[0] == a[0];
      assert [a[0]] + (a[1..] + Split(s, sep)[0]) == a + Split(s, sep)[0];
    } else {
      var parts := Split(s, sep);
      assert a + s == s;
      assert parts == [parts[0]] + parts[1..];
      assert a + parts[0] == parts[0];
    }
  }

  /** Splitting text joined from separator-free pieces gives the pieces
      back. */
  lemma {:induction false} SplitJoin(parts: seq<string>, sep: char)
    requires |parts| >= 1
    requires forall p :: p in parts ==> sep !in p
    ensures Split(Join(parts, sep), sep) == parts
    decreases |parts|
  {
    if |parts| == 1 {
      SplitPrefix(parts[0], "", sep);
      assert Split("", sep) == [""];
      assert parts[0] + "" == parts[0];
    } else {
      var tail := Join(parts[1..], sep);
      SplitJoin(parts[1..], sep);
      SplitPrefix(parts[0], [sep] + tail, sep);
      assert ([sep] + tail)[0] == sep;
      assert Split([sep] + tail, sep) == [""] + Split(tail, sep);
      assert parts[0] + [sep] + tail == parts[0] + ([sep] + tail);
      assert ([sep] + tail)[1..] == tail;
      assert Join(parts, sep) == parts[0] + [sep] + tail;
      assert Split(Join(parts, sep), sep) == [parts[0] + ""] + Split(tail, sep);
      assert parts[0] + "" == parts[0];
      assert parts == [parts[0]] + parts[1..];
    }
  }

  /** The TrimEntries | RemoveEmptyEntries options: every piece trimmed,
      empty pieces dropped. */
  function Entries(parts: seq<string>): (r: seq<string>)
    ensures |r| <= |parts|
    ensures forall i :: 0 <= i < |r| ==> r[i] != [] && Trim(r[i]) == r[i]
    decreases |parts|
  {
    if parts == [] then []
    else
      var t := Trim(parts[0]);
      var rest := Entries(parts[1..]);
      if t == [] then rest
      else
        TrimNoOp(t);
        [t] + rest
  }

  /** A piece that is already trimmed and not empty is kept in front of
      the rest's entries. */
  lemma EntriesCons(a: string, ps: seq<string>)
    requires a != [] && Trim(a) == a
    ensures Entries([a] + ps) == [a] + Entries(ps)
  {
    assert ([a] + ps)[1..] == ps;
  }

  /** str.Split(sep, TrimEntries | RemoveEmptyEntries). */
  function SplitEntries(s: string, sep: char): seq<string> {
    Entries(Split(s, sep))
  }

  /** "a<sep>b" with a and b not blank and free of the separator splits
      into exactly the trimmed a and b. */
  lemma SplitEntriesPair(a: string, b: string, sep: char)
    requires !IsBlank(a) && !IsBlank(b) && sep !in a && sep !in b
    ensures SplitEntries(a + [sep] + b, sep) == [Trim(a), Trim(b)]
  {
    assert Join([a, b], sep) == a + [sep] + b;
    SplitJoin([a, b], sep);
    var ta, tb := Trim(a), Trim(b);
    assert ta != [] && tb != [];
    assert [a, b][1..] == [b];
    assert Entries([b]) == [tb] + Entries([]);
    assert Entries([a, b]) == [ta] + Entries([b]);
  }

  // ---------------------------------------------------------------------
  // Splitting on a string separator
  // ---------------------------------------------------------------------

  /** string.Split(string) with no options: occurrences of the separator
      are found left to right without overlapping. */
  function SplitOn(s: string, sep: string): (parts: seq<string>)
    requires |sep| > 0
    ensures |parts| >= 1
    decreases |s|
  {
    if |s| < |sep| then [s]
    else if s[..|sep|] == sep then [""] + SplitOn(s[|sep|..], sep)
    else
      var rest := SplitOn(s[1..], sep);
      [[s[0]] + rest[0]] + rest[1..]
  }

  /** A prefix that does not contain the separator's first character joins
      the first piece. */
  lemma {:induction false} SplitOnPrefix(a: string, s: string, sep: string)
    requires |sep| > 0 && sep[0] !in a
    ensures SplitOn(a + s, sep) == [a + SplitOn(s, sep)[0]] + SplitOn(s, sep)[1..]
    decreases |a|
  {
    if a != [] {
      var t := a + s;
      SplitOnPrefix(a[1..], s, sep);
      assert t[1..] == a[1..] + s;
      if |t| >= |sep| {
        assert t[..|sep|][0] == a[0];
        assert t[..|sep|] != sep;
      } else {
        assert |s| < |sep|;
        assert SplitOn(s, sep) == [s];
        assert |a[1..] + s| < |sep|;
      }
      assert [a[0]] + (a[1..] + SplitOn(s, sep)[0]) == a + SplitOn(s, sep)[0];
    } else {
      var parts := SplitOn(s, sep);
      assert a + s == s;
      assert parts == [parts[0]] + parts[1..];
      assert a + parts[0] == parts[0];
    }
  }

  /** Splitting "a<sep>rest", where a cannot start an occurrence of the
      separator, gives a followed by the pieces of rest. */
  lemma SplitOnCons(a: string, rest: string, sep: string)
    requires |sep| > 0 && sep[0] !in a
    ensures SplitOn(a + sep + rest, sep) == [a] + SplitOn(rest, sep)
  {
    SplitOnPrefix(a, sep + rest, sep);
    assert (sep + rest)[..|sep|] == sep;
    assert (sep + rest)[|sep|..] == rest;
    assert a + sep + rest == a + (sep + rest);
    assert a + "" == a;
  }

  /** A string without the separator's first character is one piece. */
  lemma SplitOnSingle(a: string, sep: string)
    requires |sep| > 0 && sep[0] !in a
    ensures SplitOn(a, sep) == [a]
  {
    SplitOnPrefix(a, "", sep);
    assert a + "" == a;
  }

  /** str.Split(sep, TrimEntries | RemoveEmptyEntries) for a string
      separator. */
  function SplitOnEntries(s: string, sep: string): seq<string>
    requires |sep| > 0
  {
    Entries(SplitOn(s, sep))
  }

  // ---------------------------------------------------------------------
  // Replacing and counting
  // ---------------------------------------------------------------------

  /** string.Replace(pat, rep): occurrences found left to right without
      overlapping. */
  function Replace(s: string, pat: string, rep: string): string
    requires |pat| > 0
    decreases |s|
  {
    if |s| < |pat| then s
    else if s[..|pat|] == pat then rep + Replace(s[|pat|..], pat, rep)
    else [s[0]] + Replace(s[1..], pat, rep)
  }

  /** Replace of a single character. */
  lemma ReplaceCharStep(s: string, c: char, rep: string)
    requires s != []
    ensures Replace(s, [c], rep) ==
            (if s[0] == c then rep else [s[0]]) + Replace(s[1..], [c], rep)
  {
    assert s[..1] == [s[0]];
  }

  /** Replacing a single character distributes over concatenation. */
  lemma {:induction false} ReplaceCharAppend(a: string, b: string, c: char, rep: string)
    ensures Replace(a + b, [c], rep) == Replace(a, [c], rep) + Replace(b, [c], rep)
    decreases |a|
  {
    if a == [] {
      assert a + b == b;
    } else {
      ReplaceCharStep(a + b, c, rep);
      ReplaceCharStep(a, c, rep);
      assert (a + b)[1..] == a[1..] + b;
      ReplaceCharAppend(a[1..], b, c, rep);
    }
  }

  /** Text without the pattern's first character is left as it is. */
  lemma {:induction false} ReplaceAbsent(s: string, pat: string, rep: string)
    requires |pat| > 0 && pat[0] !in s
    ensures Replace(s, pat, rep) == s
    decreases |s|
  {
    if |s| >= |pat| {
      assert s[..|pat|][0] == s[0];
      ReplaceAbsent(s[1..], pat, rep);
    }
  }

  /** Number of occurrences of c in s. */
  function Count(s: string, c: char): (n: nat)
    ensures n <= |s|
    ensures n == 0 <==> c !in s
    decreases |s|
  {
    if s == [] then 0 else (if s[0] == c then 1 else 0) + Count(s[1..], c)
  }

  /** s ends with the suffix t. */
  predicate EndsWith(s: string, t: string) {
    |t| <= |s| && s[|s| - |t|..] == t
  }

  /** n copies of c, as `new string(c, n)` builds. */
  function Repeat(c: char, n: nat): (r: string)
    ensures |r| == n
    ensures forall i :: 0 <= i < n ==> r[i] == c
  {
    seq(n, i => c)
  }

  // ---------------------------------------------------------------------
  // Int32 text form
  // ---------------------------------------------------------------------

  const Int32Min: int := -0x8000_0000
  const Int32Max: int := 0x7FFF_FFFF

  predicate InInt32(i: int) {
    Int32Min <= i <= Int32Max
  }

  function DigitChar(d: int): (c: char)
    requires 0 <= d < 10
    ensures IsDigit(c) && c as int - '0' as int == d
  {
    ('0' as int + d) as char
  }

  predicate AllDigits(s: string) {
    forall i :: 0 <= i < |s| ==> IsDigit(s[i])
  }

  /** The decimal digits of n, most significant first, without leading
      zeros. */
  function NatToString(n: nat): (r: string)
    ensures |r| >= 1 && AllDigits(r)
    decreases n
  {
    if n < 10 then [DigitChar(n)] else NatToString(n / 10) + [DigitChar(n % 10)]
  }

  /** The value of a string of decimal digits. */
  function DigitsValue(s: string): nat
    requires AllDigits(s)
    decreases |s|
  {
    if s == [] then 0
    else DigitsValue(s[..|s| - 1]) * 10 + (s[|s| - 1] as int - '0' as int)
  }

  /** Reading back the digits of n gives n. */
  lemma {:induction false} DigitsValueOfNat(n: nat)
    ensures DigitsValue(NatToString(n)) == n
    decreases n
  {
    if n >= 10 {
      DigitsValueOfNat(n / 10);
      var s := NatToString(n);
      assert s[..|s| - 1] == NatToString(n / 10);
    }
  }

  /** A leading zero does not change the value of a digit string. */
  lemma {:induction false} DigitsValueLeadingZero(s: string)
    requires AllDigits(s)
    ensures AllDigits("0" + s) && DigitsValue("0" + s) == DigitsValue(s)
    decreases |s|
  {
    var t := "0" + s;
    if s != [] {
      DigitsValueLeadingZero(s[..|s| - 1]);
      assert t[..|t| - 1] == "0" + s[..|s| - 1];
    }
  }

  /** int.ToString() in the invariant culture. */
  function IntToString(i: int): (r: string)
    ensures |r| >= 1
    ensures i >= 0 <==> AllDigits(r)
    ensures i < 0 ==> r[0] == '-' && AllDigits(r[1..])
  {
    if i < 0 then
      var r := "-" + NatToString(-i);
      assert r[1..] == NatToString(-i);
      assert !IsDigit(r[0]);
      r
    else NatToString(i)
  }

  /** int.Parse(s) with NumberStyles.Integer: optional surrounding white
      space, an optional sign and at least one digit; None where int.Parse
      throws (bad format or a value outside Int32). */
  function ParseInt32(s: string): (r: Option<int>)
    ensures r.Some? ==> InInt32(r.value)
    ensures r.Some? ==> !IsBlank(s)
  {
    var t := Trim(s);
    if t == [] then None
    else
      var negative := t[0] == '-';
      var digits := if t[0] == '-' || t[0] == '+' then t[1..] else t;
      if digits == [] || !AllDigits(digits) then None
      else
        var n: int := DigitsValue(digits);
        var v := if negative then -n else n;
        if InInt32(v) then Some(v) else None
  }

  /** int.Parse(i.ToString()) == i for every Int32 i. */
  lemma FormatThenParse(i: int)
    requires InInt32(i)
    ensures ParseInt32(IntToString(i)) == Some(i)
  {
    if i < 0 {
      FormatThenParseNegative(i);
    } else {
      FormatThenParseNatural(i);
    }
  }

  /** FormatThenParse for a negative number: '-' and its digits. */
  lemma FormatThenParseNegative(i: int)
    requires InInt32(i) && i < 0
    ensures ParseInt32(IntToString(i)) == Some(i)
  {
    var s := IntToString(i);
    var t := NatToString(-i);
    assert s == "-" + t;
    assert s[1..] == t;
    DigitsValueOfNat(-i);
    assert DigitsValue(s[1..]) == -i;
    TrimNoOp(s);
    ParseNegative(s);
  }

  /** FormatThenParse for a number that is not negative: its digits. */
  lemma FormatThenParseNatural(i: int)
    requires InInt32(i) && i >= 0
    ensures ParseInt32(IntToString(i)) == Some(i)
  {
    var s := IntToString(i);
    TrimNoOp(s);
    DigitsValueOfNat(i);
    ParseUnsigned(s);
  }

  /** Digits with nothing around them parse to their value. */
  lemma ParseUnsigned(s: string)
    requires s != [] && Trim(s) == s && AllDigits(s) && InInt32(DigitsValue(s))
    ensures ParseInt32(s) == Some(DigitsValue(s))
  {
    assert IsDigit(s[0]);
  }

  /** A '-' followed by digits parses to the negated value. */
  lemma ParseNegative(s: string)
    requires |s| >= 2 && Trim(s) == s && s[0] == '-' && AllDigits(s[1..])
    requires InInt32(-(DigitsValue(s[1..]) as int))
    ensures ParseInt32(s) == Some(-(DigitsValue(s[1..]) as int))
  {
  }

  /** A digit string with one leading zero parses to the same value. */
  lemma ParsePaddedNat(n: nat)
    requires n <= Int32Max
    ensures ParseInt32("0" + NatToString(n)) == Some(n)
  {
    var s := "0" + NatToString(n);
    DigitsValueLeadingZero(NatToString(n));
    DigitsValueOfNat(n);
    TrimNoOp(s);
  }
}
