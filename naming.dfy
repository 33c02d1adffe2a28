/** Naming: what makes a name valid, turning any string into a valid
    name, and numbered fresh names per prefix, drawn from a counter that
    every call advances. */
module Naming {
  import opened Wrappers
  import opened Text

  /** The prefix of fresh names when none is given. */
  const DefaultPrefix: string := "New Name"

  /** The local valid_char of AsValid: a letter, digit, punctuation mark
      or symbol. */
  predicate VisibleChar(c: char) {
    IsLetterOrDigit(c) || IsPunctuation(c) || IsSymbol(c)
  }

  /** Naming.IsValid: not empty, not starting with white space (so not
      blank either), and made only of visible characters and spaces. */
  predicate ValidName(name: string) {
    name != [] && !IsWhiteSpace(name[0])
    && forall i :: 0 <= i < |name| ==> VisibleChar(name[i]) || name[i] == ' '
  }

  /** The prefix NewName uses: "New Name" for a missing or blank one. */
  function PrefixOf(prefix: Option<string>): string {
    if prefix.None? || IsBlank(prefix.value) then DefaultPrefix else prefix.value
  }

  /** The name NewName gives for a prefix whose counter stands at n. */
  function NameFor(prefix: string, n: nat): string {
    Trim(prefix + NatToString(n))
  }

  /** The character AsValid writes for c: c when visible or a space, the
      replacement otherwise. */
  function Sanitized(c: char, repl: char): char {
    if !VisibleChar(c) && c != ' ' then repl else c
  }

  /** The replacement AsValid uses: '_' unless the one given is visible. */
  function ReplOf(repl: char): (r: char)
    ensures VisibleChar(r)
  {
    if VisibleChar(repl) then repl else '_'
  }

  /** AsValid on a name that is not blank: the name itself when valid;
      otherwise the trimmed name with every character that is neither
      visible nor a space replaced. */
  function AsValidText(name: string, repl: char): (r: string)
    requires !IsBlank(name)
    ensures ValidName(name) ==> r == name
    ensures !ValidName(name) ==>
      |r| == |Trim(name)| && forall i :: 0 <= i < |r| ==> r[i] == Sanitized(Trim(name)[i], ReplOf(repl))
  {
    if ValidName(name) then name
    else
      var n := Trim(name);
      seq(|n|, i requires 0 <= i < |n| => Sanitized(n[i], ReplOf(repl)))
  }

  /** What AsValid returns for a name that is not blank is a valid name:
      trimming leaves a first and last character that are not white space,
      and sanitising keeps them so. */
  lemma AsValidTextIsValid(name: string, repl: char)
    requires !IsBlank(name)
    ensures ValidName(AsValidText(name, repl))
  {
    var r := AsValidText(name, repl);
    if !ValidName(name) {
      var n := Trim(name);
      var c := ReplOf(repl);
      assert n != [] && !IsWhiteSpace(n[0]);
      VisibleIsNotWhiteSpace(c);
      assert r[0] == Sanitized(n[0], c);
      assert !IsWhiteSpace(r[0]);
      forall i | 0 <= i < |r|
        ensures VisibleChar(r[i]) || r[i] == ' '
      {
        assert r[i] == Sanitized(n[i], c);
      }
    }
  }

  /** Trimming a prefix followed by digits trims only the prefix's
      front. */
  lemma TrimBeforeDigits(prefix: string, n: nat)
    requires !IsBlank(prefix)
    ensures NameFor(prefix, n) == TrimStart(prefix) + NatToString(n)
  {
    var d := NatToString(n);
    assert IsDigit(d[|d| - 1]);
    TrimBeforeText(prefix, d);
  }

  /** Trimming a non-blank prefix followed by text that does not end in
      white space trims only the prefix's front. */
  lemma TrimBeforeText(prefix: string, d: string)
    requires !IsBlank(prefix) && d != [] && !IsWhiteSpace(d[|d| - 1])
    ensures Trim(prefix + d) == TrimStart(prefix) + d
  {
    var t := TrimStart(prefix) + d;
    TrimStartBefore(prefix, d);
    assert TrimEnd(t) == t by {
      assert t[|t| - 1] == d[|d| - 1];
    }
    assert Trim(prefix + d) == TrimEnd(TrimStart(prefix + d));
  }

  /** The front of a non-blank prefix is all TrimStart removes from the
      prefix followed by anything. */
  lemma {:induction false} TrimStartBefore(prefix: string, d: string)
    requires !IsBlank(prefix)
    ensures TrimStart(prefix + d) == TrimStart(prefix) + d
    decreases |prefix|
  {
    if IsWhiteSpace(prefix[0]) {
      assert (prefix + d)[1..] == prefix[1..] + d;
      TrimStartBefore(prefix[1..], d);
    }
  }

  /** Different counts give different names under one prefix. */
  lemma NameForInjective(prefix: string, m: nat, n: nat)
    requires !IsBlank(prefix) && NameFor(prefix, m) == NameFor(prefix, n)
    ensures m == n
  {
    TrimBeforeDigits(prefix, m);
    TrimBeforeDigits(prefix, n);
    var p := TrimStart(prefix);
    assert NatToString(m) == (p + NatToString(m))[|p|..];
    assert NatToString(n) == (p + NatToString(n))[|p|..];
    DigitsValueOfNat(m);
    DigitsValueOfNat(n);
  }

  /** The default prefix makes valid names. */
  lemma DefaultNameValid(n: nat)
    ensures ValidName(NameFor(DefaultPrefix, n))
  {
    var d := NatToString(n);
    var s := DefaultPrefix + d;
    assert IsDigit(s[|s| - 1]);
    TrimNoOp(s);
    forall i | 0 <= i < |s|
      ensures VisibleChar(s[i]) || s[i] == ' '
    {
      if i >= 8 {
        assert s[i] == d[i - 8];
      }
    }
  }

  /** The static Naming class: its _counter dictionary, a count per
      prefix. */
  class Namer {
    var counter: map<string, nat>

    constructor ()
      ensures counter == map[]
    {
      counter := map[];
    }

    /** How often NewName has used the prefix. */
    function Used(prefix: string): nat
      reads this
    {
      if prefix in counter then counter[prefix] else 0
    }

    /** IsValid(name): a blank name or one starting with white space is
        refused before the scan of the characters. */
    static method IsValid(name: string) returns (b: bool)
      ensures b == ValidName(name)
    {
      if |Trim(name)| == 0 || IsWhiteSpace(name[0]) {
        return false;
      }
      b := AllVisible(name);
    }

    /** The loop of IsValid: every character visible or a space. */
    static method AllVisible(name: string) returns (b: bool)
      ensures b <==> forall k :: 0 <= k < |name| ==> VisibleChar(name[k]) || name[k] == ' '
    {
      var i := 0;
      while i < |name|
        invariant 0 <= i <= |name|
        invariant forall k :: 0 <= k < i ==> VisibleChar(name[k]) || name[k] == ' '
      {
        if !VisibleChar(name[i]) && name[i] != ' ' {
          return false;
        }
        i := i + 1;
      }
      return true;
    }

    /** NewName(prefix): the prefix, blank replaced by "New Name", followed
        by its count, trimmed; the count then goes up by one, and no other
        count changes. */
    method NewName(prefix: Option<string>) returns (name: string)
      modifies this
      ensures name == NameFor(PrefixOf(prefix), old(Used(PrefixOf(prefix))))
      ensures counter == old(counter)[PrefixOf(prefix) := old(Used(PrefixOf(prefix))) + 1]
    {
      var p := PrefixOf(prefix);
      name := NextName(p);
    }

    /** NewName past the choice of prefix: the name from the prefix's
        count, which then goes up by one. */
    method NextName(p: string) returns (name: string)
      modifies this
      ensures name == NameFor(p, old(Used(p)))
      ensures counter == old(counter)[p := old(Used(p)) + 1]
    {
      ghost var before := counter;
      ghost var used := Used(p);
      if p !in counter {
        counter := counter[p := 0];
      }
      assert counter[p] == used;
      name := Trim(p + NatToString(counter[p]));
      counter := counter[p := counter[p] + 1];
      assert counter == before[p := used + 1];
    }

    /** AsValid(name, repl): a fresh default name for a blank name;
        otherwise the name itself when valid, or the trimmed name with its
        stray characters replaced.  Always a valid name. */
    method AsValid(name: string, repl: char) returns (r: string)
      modifies this
      ensures ValidName(r)
      ensures IsBlank(name) ==>
        r == NameFor(DefaultPrefix, old(Used(DefaultPrefix))) && counter == old(counter)[DefaultPrefix := old(Used(DefaultPrefix)) + 1]
      ensures !IsBlank(name) ==> r == AsValidText(name, repl) && counter == old(counter)
    {
      if |Trim(name)| == 0 {
        r := NewDefaultName();
        return;
      }
      r := AsValidNonBlank(name, repl);
    }

    /** NewName() with no prefix, as AsValid calls it: the next default
        name, which is valid. */
    method NewDefaultName() returns (r: string)
      modifies this
      ensures ValidName(r)
      ensures r == NameFor(DefaultPrefix, old(Used(DefaultPrefix)))
      ensures counter == old(counter)[DefaultPrefix := old(Used(DefaultPrefix)) + 1]
    {
      ghost var n := Used(DefaultPrefix);
      r := NextName(DefaultPrefix);
      DefaultNameValid(n);
    }

    /** AsValid past its blank-name test. */
    static method AsValidNonBlank(name: string, repl: char) returns (r: string)
      requires !IsBlank(name)
      ensures r == AsValidText(name, repl) && ValidName(r)
    {
      AsValidTextIsValid(name, repl);
      var valid := IsValid(name);
      if valid {
        return name;
      }
      var c := if VisibleChar(repl) then repl else '_';
      r := Sanitize(Trim(name), c);
      assert r == AsValidText(name, repl);
    }

    /** The StringBuilder loop of AsValid over the trimmed name n. */
    static method Sanitize(n: string, c: char) returns (r: string)
      ensures |r| == |n| && forall k :: 0 <= k < |n| ==> r[k] == Sanitized(n[k], c)
    {
      r := "";
      var i := 0;
      while i < |n|
        invariant 0 <= i <= |n|
        invariant |r| == i && forall k :: 0 <= k < i ==> r[k] == Sanitized(n[k], c)
      {
        if !VisibleChar(n[i]) && n[i] != ' ' {
          r := r + [c];
        } else {
          r := r + [n[i]];
        }
        i := i + 1;
      }
    }
  }

  /** Two NewName calls with one prefix and no call in between for that
      prefix give different names: the second sees the count the first
      left behind. */
  lemma NewNamesDistinct(prefix: string, n: nat)
    requires !IsBlank(prefix)
    ensures NameFor(prefix, n) != NameFor(prefix, n + 1)
  {
    if NameFor(prefix, n) == NameFor(prefix, n + 1) {
      NameForInjective(prefix, n, n + 1);
    }
  }
}
