/** ProductList: the ordered list of products, in which no two entries
    share a name up to letter case.  Lookup is by object or by name, adding
    replaces an entry of the same name in place when asked to, and the list
    is read from and written to a ProductList XML element whose children
    are Product elements. */
module ProductLists {
  import opened Wrappers
  import opened Text
  import opened Xml
  import opened Files
  import opened Products
  import XmlLoadable
  import StringTools

  // ---------------------------------------------------------------------
  // Names
  // ---------------------------------------------------------------------

  /** The form a name is compared in: itself when case matters, lower-cased
      otherwise. */
  function Key(name: string, casesense: bool): string {
    if casesense then name else ToLower(name)
  }

  function NamesOf(rs: seq<Record>): (ns: seq<string>)
    ensures |ns| == |rs| && forall i :: 0 <= i < |rs| ==> ns[i] == rs[i].name
  {
    seq(|rs|, i requires 0 <= i < |rs| => rs[i].name)
  }

  /** No two names are equal up to letter case. */
  predicate UniqueNames(ns: seq<string>) {
    forall i, j :: 0 <= i < j < |ns| ==> ToLower(ns[i]) != ToLower(ns[j])
  }

  /** The first index at or after i whose name matches, or -1. */
  function FindFrom(ns: seq<string>, name: string, casesense: bool, i: nat): (r: int)
    requires i <= |ns|
    ensures r == -1 || i <= r < |ns|
    decreases |ns| - i
  {
    if i == |ns| then -1
    else if Key(ns[i], casesense) == Key(name, casesense) then i
    else FindFrom(ns, name, casesense, i + 1)
  }

  /** FindFrom answers with a match, and nothing between i and its answer
      (or the end) matches. */
  lemma {:induction false} FindFromMeaning(ns: seq<string>, name: string, casesense: bool, i: nat)
    requires i <= |ns|
    ensures var r := FindFrom(ns, name, casesense, i);
      (r >= 0 ==> Key(ns[r], casesense) == Key(name, casesense))
      && forall k :: i <= k < |ns| && (r == -1 || k < r) ==> Key(ns[k], casesense) != Key(name, casesense)
    decreases |ns| - i
  {
    if i < |ns| && Key(ns[i], casesense) != Key(name, casesense) {
      FindFromMeaning(ns, name, casesense, i + 1);
    }
  }

  /** A match with no match before it, from i on, is FindFrom's answer;
      so is -1 when nothing from i on matches. */
  lemma {:induction false} FindFromFirst(ns: seq<string>, name: string, casesense: bool, i: nat, j: int)
    requires i <= |ns| && -1 <= j < |ns| && (j >= 0 ==> i <= j)
    requires j >= 0 ==> Key(ns[j], casesense) == Key(name, casesense)
    requires forall k :: i <= k < |ns| && (j == -1 || k < j) ==> Key(ns[k], casesense) != Key(name, casesense)
    ensures FindFrom(ns, name, casesense, i) == j
    decreases |ns| - i
  {
    if i < |ns| && i != j {
      FindFromFirst(ns, name, casesense, i + 1, j);
    }
  }

  /** IndexOf(name, casesense): -1 for a blank name; otherwise the first
      index whose name matches, or -1 when none does (FindMeaning). */
  function Find(ns: seq<string>, name: string, casesense: bool): (r: int)
    ensures -1 <= r < |ns|
    ensures IsBlank(name) ==> r == -1
  {
    if |Trim(name)| == 0 then -1 else FindFrom(ns, name, casesense, 0)
  }

  /** What Find's answer means: a matching index with no match before it,
      or -1 when no entry matches. */
  lemma FindMeaning(ns: seq<string>, name: string, casesense: bool)
    ensures var r := Find(ns, name, casesense);
      (r >= 0 ==> Key(ns[r], casesense) == Key(name, casesense))
      && (!IsBlank(name) ==> forall k :: 0 <= k < |ns| && (r == -1 || k < r) ==> Key(ns[k], casesense) != Key(name, casesense))
  {
    if !IsBlank(name) {
      FindFromMeaning(ns, name, casesense, 0);
    }
  }

  // ---------------------------------------------------------------------
  // Adding and loading, on the products' values
  // ---------------------------------------------------------------------

  datatype ListLoad = ListLoad(ok: bool, records: seq<Record>)

  /** Add(prod, replace) on the values: an invalid product is refused; a
      name already present (up to case) is refused, or replaces the first
      entry of that name in place when `replace` is set; a new name is
      appended. */
  function AddRecord(rs: seq<Record>, r: Record, replace: bool): ListLoad {
    if !ValidRecord(r) then ListLoad(false, rs)
    else
      var k := Find(NamesOf(rs), r.name, false);
      if k < 0 then ListLoad(true, rs + [r])
      else if replace then ListLoad(true, rs[k := r])
      else ListLoad(false, rs)
  }

  /** The three outcomes of AddRecord for a valid record, by the index
      of the first entry with its name. */
  lemma AddRecordCases(rs: seq<Record>, r: Record, replace: bool, at: int)
    requires ValidRecord(r) && at == Find(NamesOf(rs), r.name, false)
    ensures at < 0 ==> AddRecord(rs, r, replace) == ListLoad(true, rs + [r])
    ensures at >= 0 && replace ==> AddRecord(rs, r, replace) == ListLoad(true, rs[at := r])
    ensures at >= 0 && !replace ==> AddRecord(rs, r, replace) == ListLoad(false, rs)
  {
  }

  /** Replacing a name by one equal to it up to case keeps the names
      unique. */
  lemma ReplaceKeepsUnique(ns: seq<string>, k: int, n: string)
    requires UniqueNames(ns) && 0 <= k < |ns| && ToLower(ns[k]) == ToLower(n)
    ensures UniqueNames(ns[k := n])
  {
    var ms := ns[k := n];
    forall i, j | 0 <= i < j < |ms|
      ensures ToLower(ms[i]) != ToLower(ms[j])
    {
      assert ToLower(ms[i]) == ToLower(ns[i]) && ToLower(ms[j]) == ToLower(ns[j]);
    }
  }

  /** Appending a name unequal to all others up to case keeps the names
      unique. */
  lemma AppendKeepsUnique(ns: seq<string>, n: string)
    requires UniqueNames(ns) && forall k :: 0 <= k < |ns| ==> ToLower(ns[k]) != ToLower(n)
    ensures UniqueNames(ns + [n])
  {
    var ms := ns + [n];
    forall i, j | 0 <= i < j < |ms|
      ensures ToLower(ms[i]) != ToLower(ms[j])
    {
      if j < |ns| {
        assert ms[i] == ns[i] && ms[j] == ns[j];
      } else {
        assert ms[i] == ns[i] && ms[j] == n;
      }
    }
  }

  lemma NamesAppend(rs: seq<Record>, r: Record)
    ensures NamesOf(rs + [r]) == NamesOf(rs) + [r.name]
  {
  }

  lemma NamesUpdate(rs: seq<Record>, k: int, r: Record)
    requires 0 <= k < |rs|
    ensures NamesOf(rs[k := r]) == NamesOf(rs)[k := r.name]
  {
  }

  /** Add keeps the names unique: the invariant of ProductList. */
  lemma AddRecordUnique(rs: seq<Record>, r: Record, replace: bool)
    requires UniqueNames(NamesOf(rs))
    ensures UniqueNames(NamesOf(AddRecord(rs, r, replace).records))
  {
    if ValidRecord(r) {
      var ns := NamesOf(rs);
      var k := Find(ns, r.name, false);
      FindMeaning(ns, r.name, false);
      if k < 0 {
        NamesAppend(rs, r);
        AppendKeepsUnique(ns, r.name);
      } else if replace {
        NamesUpdate(rs, k, r);
        ReplaceKeepsUnique(ns, k, r.name);
      }
    }
  }

  /** LoadFromXml over the children from the first on: a child that is
      not an element fails the cast to XmlElement, which stops the load
      with false; elements not named Product are skipped; a Product child
      is loaded into a new product, and the first one that fails stops the
      load with false.  A load that stops keeps what was merged before it;
      each loaded product is merged with Add(p, true), so an invalid one is
      dropped silently. */
  function LoadChildren(rs: seq<Record>, children: seq<Node>, st: SpanText): (res: ListLoad)
    decreases |children|
  {
    if children == [] then ListLoad(true, rs)
    else if children[0].OtherNode? then ListLoad(false, rs)
    else if children[0].element.name != "Product" then LoadChildren(rs, children[1..], st)
    else
      var l := LoadRecord(children[0].element, st, Record("", DefaultLifetime));
      if !l.ok then ListLoad(false, rs)
      else LoadChildren(AddRecord(rs, l.record, true).records, children[1..], st)
  }

  /** Loading keeps the names unique. */
  lemma {:induction false} LoadChildrenUnique(rs: seq<Record>, children: seq<Node>, st: SpanText)
    requires UniqueNames(NamesOf(rs))
    ensures UniqueNames(NamesOf(LoadChildren(rs, children, st).records))
    decreases |children|
  {
    if children != [] && children[0].ElementNode? {
      if children[0].element.name != "Product" {
        LoadChildrenUnique(rs, children[1..], st);
      } else {
        var l := LoadRecord(children[0].element, st, Record("", DefaultLifetime));
        if l.ok {
          AddRecordUnique(rs, l.record, true);
          LoadChildrenUnique(AddRecord(rs, l.record, true).records, children[1..], st);
        }
      }
    }
  }

  /** A comment or any other node that is not an element stops the load
      with false: what the children before it merged stays in the list, and
      the children after it are not read, whatever they are. */
  lemma {:induction false} NonElementStopsLoad(rs: seq<Record>, before: seq<Node>, rest: seq<Node>, st: SpanText)
    requires LoadChildren(rs, before, st).ok
    ensures LoadChildren(rs, before + [OtherNode] + rest, st) == ListLoad(false, LoadChildren(rs, before, st).records)
    decreases |before|
  {
    if before != [] {
      assert (before + [OtherNode] + rest)[1..] == before[1..] + [OtherNode] + rest;
      if before[0].element.name != "Product" {
        NonElementStopsLoad(rs, before[1..], rest, st);
      } else {
        var l := LoadRecord(before[0].element, st, Record("", DefaultLifetime));
        NonElementStopsLoad(AddRecord(rs, l.record, true).records, before[1..], rest, st);
      }
    }
  }

  /** Some name equals `name` up to case. */
  predicate Present(ns: seq<string>, name: string) {
    exists i :: 0 <= i < |ns| && ToLower(ns[i]) == ToLower(name)
  }

  /** Add grows the list by one exactly for a valid product whose name is
      not present up to case; otherwise the count stays. */
  lemma AddRecordCount(rs: seq<Record>, r: Record, replace: bool)
    ensures |AddRecord(rs, r, replace).records|
      == |rs| + (if ValidRecord(r) && !Present(NamesOf(rs), r.name) then 1 else 0)
  {
    if ValidRecord(r) {
      PresentFound(NamesOf(rs), r.name);
    }
  }

  /** A name present up to case is what IndexOf(name) finds. */
  lemma PresentFound(ns: seq<string>, name: string)
    requires !IsBlank(name)
    ensures Present(ns, name) <==> Find(ns, name, false) >= 0
  {
    FindMeaning(ns, name, false);
    var k := Find(ns, name, false);
    if k >= 0 {
      assert ToLower(ns[k]) == ToLower(name);
    }
  }

  /** Add(p, true) keeps every name, up to case. */
  lemma AddKeeps(rs: seq<Record>, r: Record, name: string)
    requires Present(NamesOf(rs), name)
    ensures Present(NamesOf(AddRecord(rs, r, true).records), name)
  {
    var ns := NamesOf(rs);
    var i :| 0 <= i < |ns| && ToLower(ns[i]) == ToLower(name);
    var k := Find(ns, r.name, false);
    if ValidRecord(r) {
      if k < 0 {
        NamesAppend(rs, r);
        assert (ns + [r.name])[i] == ns[i];
      } else {
        FindMeaning(ns, r.name, false);
        NamesUpdate(rs, k, r);
        assert ToLower(ns[k := r.name][i]) == ToLower(ns[i]);
      }
    }
  }

  /** Loading does not clear the list: every name present before is still
      present afterwards, up to case, whether the load succeeds or not. */
  lemma {:induction false} LoadChildrenKeeps(rs: seq<Record>, children: seq<Node>, st: SpanText, name: string)
    requires Present(NamesOf(rs), name)
    ensures Present(NamesOf(LoadChildren(rs, children, st).records), name)
    decreases |children|
  {
    if children != [] && children[0].ElementNode? {
      if children[0].element.name != "Product" {
        LoadChildrenKeeps(rs, children[1..], st, name);
      } else {
        var l := LoadRecord(children[0].element, st, Record("", DefaultLifetime));
        if l.ok {
          AddKeeps(rs, l.record, name);
          LoadChildrenKeeps(AddRecord(rs, l.record, true).records, children[1..], st, name);
        }
      }
    }
  }

  /** The element ToString writes, as text: the opening tag and LF, each
      product's text indented by one tab and ended by the line terminator,
      then the closing tag and LF. */
  function ListText(rs: seq<Record>, st: SpanText, newline: string): string {
    OpenedText(rs, st, newline) + "</ProductList>\n"
  }

  /** The text before the closing tag. */
  function OpenedText(rs: seq<Record>, st: SpanText, newline: string): string {
    if rs == [] then "<ProductList>\n"
    else OpenedText(rs[..|rs| - 1], st, newline) + StringTools.Indent(RecordText(rs[|rs| - 1], st, newline), 1) + newline
  }

  /** The text of the first i + 1 entries is that of the first i and one
      more line. */
  lemma OpenedStep(rs: seq<Record>, i: int, st: SpanText, newline: string)
    requires 0 <= i < |rs|
    ensures OpenedText(rs[..i + 1], st, newline)
      == OpenedText(rs[..i], st, newline) + StringTools.Indent(RecordText(rs[i], st, newline), 1) + newline
  {
    assert rs[..i + 1][..i] == rs[..i];
  }

  // ---------------------------------------------------------------------
  // The list object
  // ---------------------------------------------------------------------

  /** The values of a sequence of products. */
  function RecordsOf(ps: seq<Product>): (rs: seq<Record>)
    reads ps
    ensures |rs| == |ps| && forall i :: 0 <= i < |ps| ==> rs[i] == ps[i].Value()
  {
    seq(|ps|, i reads ps requires 0 <= i < |ps| => ps[i].Value())
  }

  lemma RecordsOfUpdate(ps: seq<Product>, k: int, p: Product)
    requires 0 <= k < |ps|
    ensures RecordsOf(ps[k := p]) == RecordsOf(ps)[k := p.Value()]
  {
  }

  lemma RecordsOfAppend(ps: seq<Product>, p: Product)
    ensures RecordsOf(ps + [p]) == RecordsOf(ps) + [p.Value()]
  {
  }

  /** Putting a valid product in place of the first entry of its name is
      AddRecord with replacement, and keeps the names unique. */
  lemma PutRecords(ps: seq<Product>, k: int, p: Product)
    requires p.IsValid() && 0 <= k < |ps| && k == Find(NamesOf(RecordsOf(ps)), p.name, false)
    ensures AddRecord(RecordsOf(ps), p.Value(), true) == ListLoad(true, RecordsOf(ps[k := p]))
    ensures UniqueNames(NamesOf(RecordsOf(ps))) ==> UniqueNames(NamesOf(RecordsOf(ps[k := p])))
  {
    var rs := RecordsOf(ps);
    AddRecordCases(rs, p.Value(), true, k);
    RecordsOfUpdate(ps, k, p);
    if UniqueNames(NamesOf(rs)) {
      AddRecordUnique(rs, p.Value(), true);
    }
  }

  /** Appending a valid product whose name is absent is AddRecord, and
      keeps the names unique. */
  lemma AppendRecords(ps: seq<Product>, p: Product, replace: bool)
    requires p.IsValid() && Find(NamesOf(RecordsOf(ps)), p.name, false) < 0
    ensures AddRecord(RecordsOf(ps), p.Value(), replace) == ListLoad(true, RecordsOf(ps + [p]))
    ensures UniqueNames(NamesOf(RecordsOf(ps))) ==> UniqueNames(NamesOf(RecordsOf(ps + [p])))
  {
    var rs := RecordsOf(ps);
    AddRecordCases(rs, p.Value(), replace, Find(NamesOf(rs), p.name, false));
    RecordsOfAppend(ps, p);
    if UniqueNames(NamesOf(rs)) {
      AddRecordUnique(rs, p.Value(), replace);
    }
  }

  class ProductList {
    var products: seq<Product>

    /** The products' values, in order. */
    function Records(): seq<Record>
      reads this, products
    {
      RecordsOf(products)
    }

    /** No two products share a name up to case. */
    predicate Unique()
      reads this, products
    {
      UniqueNames(NamesOf(Records()))
    }

    /** A new, empty list (the file is loaded by Load). */
    constructor ()
      ensures products == []
    {
      products := [];
    }

    /** Count. */
    function Count(): nat
      reads this
    {
      |products|
    }

    /** IndexOf(prod): -1 for an invalid product; otherwise the first index
        holding this very object, or -1.  An equal product that is another
        object is not found. */
    method IndexOfProduct(prod: Product) returns (i: int)
      ensures -1 <= i && (!prod.IsValid() ==> i == -1)
      ensures prod.IsValid() ==> (i == -1 <==> prod !in products)
      ensures i >= 0 ==> i < |products| && products[i] == prod && prod !in products[..i]
    {
      if !prod.IsValid() {
        return -1;
      }
      i := 0;
      while i < |products|
        invariant 0 <= i <= |products|
        invariant prod !in products[..i]
      {
        if prod == products[i] {
          return i;
        }
        assert products[..i + 1] == products[..i] + [products[i]];
        i := i + 1;
      }
      assert products[..i] == products;
      return -1;
    }

    /** IndexOf(name, casesense): -1 for a blank name, otherwise a scan
        from the front. */
    method IndexOf(name: string, casesense: bool) returns (i: int)
      ensures i == Find(NamesOf(Records()), name, casesense)
    {
      if |Trim(name)| == 0 {
        return -1;
      }
      i := Scan(name, casesense);
    }

    /** The loop of IndexOf: the first index whose name matches, or -1. */
    method Scan(name: string, casesense: bool) returns (i: int)
      ensures i == FindFrom(NamesOf(Records()), name, casesense, 0)
    {
      var n := if casesense then name else ToLower(name);
      i := 0;
      while i < |products|
        invariant 0 <= i <= |products|
        invariant forall k :: 0 <= k < i ==> Key(products[k].name, casesense) != n
      {
        var pn := if casesense then products[i].name else ToLower(products[i].name);
        if pn == n {
          FindFromFirst(NamesOf(Records()), name, casesense, 0, i);
          return i;
        }
        i := i + 1;
      }
      FindFromFirst(NamesOf(Records()), name, casesense, 0, -1);
      return -1;
    }

    /** Contains(prod). */
    method ContainsProduct(prod: Product) returns (b: bool)
      ensures b <==> prod.IsValid() && prod in products
    {
      var i := IndexOfProduct(prod);
      b := i >= 0;
    }

    /** Contains(name, casesense). */
    method Contains(name: string, casesense: bool) returns (b: bool)
      ensures b <==> Find(NamesOf(Records()), name, casesense) >= 0
    {
      var i := IndexOf(name, casesense);
      b := i >= 0;
    }

    /** Get(index): null out of range. */
    method Get(index: int) returns (p: Product?)
      ensures 0 <= index < |products| ==> p == products[index]
      ensures !(0 <= index < |products|) ==> p == null
    {
      if index < 0 || index >= |products| {
        return null;
      }
      return products[index];
    }

    /** Get(name): the first product of that name up to case, or null. */
    method GetByName(name: string) returns (p: Product?)
      ensures var k := Find(NamesOf(Records()), name, false);
        (k >= 0 ==> p == products[k]) && (k < 0 ==> p == null)
    {
      var i := IndexOf(name, false);
      p := Get(i);
    }

    /** Add(prod, replace). */
    method Add(prod: Product?, replace: bool) returns (ok: bool)
      modifies this
      ensures prod == null ==> !ok && products == old(products)
      ensures prod != null ==> ListLoad(ok, Records()) == AddRecord(old(Records()), prod.Value(), replace)
      ensures prod != null && prod.IsValid() ==>
        var k := Find(NamesOf(old(Records())), prod.name, false);
        products == (if k < 0 then old(products) + [prod] else if replace then old(products)[k := prod] else old(products))
      ensures prod != null && !prod.IsValid() ==> products == old(products)
      ensures prod != null ==> Count() == |AddRecord(old(Records()), prod.Value(), replace).records|
      ensures old(Unique()) ==> Unique()
    {
      if prod == null || !prod.IsValid() {
        return false;
      }
      ok := AddValid(prod, replace);
    }

    /** Add for a valid product: refused, replacing or appending. */
    method AddValid(prod: Product, replace: bool) returns (ok: bool)
      requires prod.IsValid()
      modifies this
      ensures ListLoad(ok, Records()) == AddRecord(old(Records()), prod.Value(), replace)
      ensures var k := Find(NamesOf(old(Records())), prod.name, false);
        products == (if k < 0 then old(products) + [prod] else if replace then old(products)[k := prod] else old(products))
      ensures old(Unique()) ==> Unique()
    {
      var found := Contains(prod.name, false);
      if found && !replace {
        AddRecordCases(Records(), prod.Value(), replace, Find(NamesOf(Records()), prod.name, false));
        return false;
      }
      if found {
        Replace(prod);
      } else {
        Append(prod, replace);
      }
      return true;
    }

    /** The replacing branch of Add: m_products[IndexOf(prod.Name)] =
        prod. */
    method Replace(prod: Product)
      requires prod.IsValid() && Find(NamesOf(Records()), prod.name, false) >= 0
      modifies this
      ensures products == old(products)[Find(NamesOf(old(Records())), prod.name, false) := prod]
      ensures ListLoad(true, Records()) == AddRecord(old(Records()), prod.Value(), true)
      ensures old(Unique()) ==> Unique()
    {
      var k := IndexOf(prod.name, false);
      Put(k, prod);
    }

    /** m_products[k] = prod, for the entry Add replaces. */
    method Put(k: int, prod: Product)
      requires prod.IsValid() && 0 <= k < |products| && k == Find(NamesOf(Records()), prod.name, false)
      modifies this
      ensures products == old(products)[k := prod]
      ensures ListLoad(true, Records()) == AddRecord(old(Records()), prod.Value(), true)
      ensures old(Unique()) ==> Unique()
    {
      ghost var ps := products;
      ghost var rs := Records();
      products := products[k := prod];
      assert Records() == RecordsOf(ps[k := prod]);
      assert RecordsOf(ps) == rs;
      PutRecords(ps, k, prod);
    }

    /** m_products.Add(prod), for a name not present. */
    method Append(prod: Product, ghost replace: bool)
      requires prod.IsValid() && Find(NamesOf(Records()), prod.name, false) < 0
      modifies this
      ensures products == old(products) + [prod]
      ensures ListLoad(true, Records()) == AddRecord(old(Records()), prod.Value(), replace)
      ensures old(Unique()) ==> Unique()
    {
      ghost var ps := products;
      ghost var rs := Records();
      products := products + [prod];
      assert Records() == RecordsOf(ps + [prod]);
      assert RecordsOf(ps) == rs;
      AppendRecords(ps, prod, replace);
    }
    /** RemoveAt(index): false and no change out of range; otherwise the
        entry goes and the later ones move down. */
    method RemoveAt(index: int) returns (ok: bool)
      modifies this
      ensures ok <==> 0 <= index < |old(products)|
      ensures ok ==> products == old(products)[..index] + old(products)[index + 1..]
      ensures !ok ==> products == old(products)
      ensures Count() == if ok then old(Count()) - 1 else old(Count())
      ensures old(Unique()) ==> Unique()
    {
      if index < 0 || index >= |products| {
        return false;
      }
      ghost var ns := NamesOf(Records());
      products := products[..index] + products[index + 1..];
      assert NamesOf(Records()) == ns[..index] + ns[index + 1..];
      return true;
    }

    /** Remove(prod): RemoveAt(IndexOf(prod)). */
    method RemoveProduct(prod: Product) returns (ok: bool)
      modifies this
      ensures ok <==> prod.IsValid() && prod in old(products)
      ensures ok ==> exists i :: (0 <= i < |old(products)| && old(products)[i] == prod && prod !in old(products)[..i]
        && products == old(products)[..i] + old(products)[i + 1..])
      ensures !ok ==> products == old(products)
      ensures old(Unique()) ==> Unique()
    {
      var i := IndexOfProduct(prod);
      ok := RemoveAt(i);
    }

    /** Remove(name, casesense): the first entry of that name goes. */
    method Remove(name: string, casesense: bool) returns (ok: bool)
      modifies this
      ensures var k := Find(NamesOf(old(Records())), name, casesense);
        (ok <==> k >= 0) && (ok ==> products == old(products)[..k] + old(products)[k + 1..])
        && (!ok ==> products == old(products))
      ensures Count() == if ok then old(Count()) - 1 else old(Count())
      ensures old(Unique()) ==> Unique()
    {
      var i := IndexOf(name, casesense);
      ok := RemoveAt(i);
    }

    /** Clear(). */
    method Clear()
      modifies this
      ensures products == [] && Unique()
    {
      products := [];
    }

    /** LoadFromXml(element): the children merged in order into the list,
        which is not cleared first. */
    method LoadFromXml(e: Element, st: SpanText) returns (ok: bool)
      modifies this
      ensures ListLoad(ok, Records()) == LoadChildren(old(Records()), e.children, st)
      ensures old(Unique()) ==> Unique()
    {
      var i := 0;
      while i < |e.children|
        invariant 0 <= i <= |e.children|
        invariant LoadChildren(Records(), e.children[i..], st) == LoadChildren(old(Records()), e.children, st)
        invariant old(Unique()) ==> Unique()
      {
        var c := e.children[i];
        assert e.children[i..][1..] == e.children[i + 1..];
        if c.OtherNode? {
          return false;
        }
        if c.element.name == "Product" {
          var loaded := LoadChild(c.element, st);
          if !loaded {
            return false;
          }
        }
        i := i + 1;
      }
      return true;
    }

    /** One Product child of LoadFromXml: loaded into a new product, which
        is then merged with Add(p, true) when it loaded. */
    method LoadChild(c: Element, st: SpanText) returns (ok: bool)
      modifies this
      ensures var l := LoadRecord(c, st, Record("", DefaultLifetime));
        ok == l.ok
        && Records() == (if ok then AddRecord(old(Records()), l.record, true).records else old(Records()))
      ensures old(Unique()) ==> Unique()
    {
      var p;
      p, ok := LoadedProduct(c, st);
      if ok {
        var _ := Add(p, true);
      }
    }

    /** The new product of LoadChild, loaded from the element; no product
        already in a list changes. */
    static method LoadedProduct(c: Element, st: SpanText) returns (p: Product, ok: bool)
      ensures fresh(p)
      ensures RecordLoad(ok, p.Value()) == LoadRecord(c, st, Record("", DefaultLifetime))
    {
      p := new Product();
      ok := p.LoadFromXml(c, st);
    }

    /** ToString(), with AppendLine's terminator `newline`. */
    method ToString(st: SpanText, newline: string) returns (s: string)
      ensures s == ListText(Records(), st, newline)
    {
      ghost var rs := Records();
      var sb := "<ProductList>\n";
      var i := 0;
      while i < |products|
        invariant 0 <= i <= |products|
        invariant sb == OpenedText(rs[..i], st, newline)
      {
        OpenedStep(rs, i, st, newline);
        sb := sb + StringTools.Indent(products[i].ToString(st, newline), 1) + newline;
        i := i + 1;
      }
      assert rs[..i] == rs;
      s := sb + "</ProductList>\n";
    }

    /** LoadFromFile(path, xpath): false when there is no target element;
        otherwise LoadFromXml on it. */
    method LoadFromFile(fs: FileStore, path: string, parse: string -> Option<XmlLoadable.Document>, xpath: Option<string>, st: SpanText)
      returns (ok: bool)
      modifies this
      ensures XmlLoadable.FileTarget(fs, path, parse, xpath).None? ==> !ok && products == old(products)
      ensures XmlLoadable.FileTarget(fs, path, parse, xpath).Some? ==>
        ListLoad(ok, Records()) == LoadChildren(old(Records()), XmlLoadable.FileTarget(fs, path, parse, xpath).value.children, st)
      ensures old(Unique()) ==> Unique()
    {
      var target := XmlLoadable.FileTarget(fs, path, parse, xpath);
      if target.None? {
        return false;
      }
      ok := LoadFromXml(target.value, st);
    }

    /** Load(): when the products file is missing, the preset is downloaded
        into it first (`preset` is the downloaded text, None when the
        download fails, which makes Load fail); then LoadFromFile. */
    method Load(fs: FileStore, path: string, preset: Option<string>, parse: string -> Option<XmlLoadable.Document>, st: SpanText)
      returns (ok: bool)
      modifies this, fs
      ensures path !in old(fs.files) && preset.None? ==> !ok && products == old(products) && fs.files == old(fs.files)
      ensures path !in old(fs.files) && preset.Some? ==> fs.files == old(fs.files)[path := Text(preset.value)]
      ensures path in old(fs.files) ==> fs.files == old(fs.files)
      ensures !(path !in old(fs.files) && preset.None?) ==>
        (XmlLoadable.FileTarget(fs, path, parse, None).None? ==> !ok && products == old(products))
        && (XmlLoadable.FileTarget(fs, path, parse, None).Some? ==>
          ListLoad(ok, Records()) == LoadChildren(old(Records()), XmlLoadable.FileTarget(fs, path, parse, None).value.children, st))
    {
      if !fs.Exists(path) {
        if preset.None? {
          return false;
        }
        fs.files := fs.files[path := Text(preset.value)];
      }
      ok := LoadFromFile(fs, path, parse, None, st);
    }

    /** Save(): ToFile(this, path, true), which always writes. */
    method Save(fs: FileStore, path: string, st: SpanText, newline: string) returns (ok: bool)
      modifies fs
      ensures ok && fs.files == old(fs.files)[path := Text(Header + "\r\n" + ListText(Records(), st, newline))]
    {
      var text := ToString(st, newline);
      ok := XmlLoadable.ToFile(fs, text, path, true);
    }
  }
}
