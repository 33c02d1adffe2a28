/** IndexedDatabase<T> and StringDatabase<T>: a list and a dictionary of
    items that serialise themselves, each stored in a binary stream as a
    count followed by the items (the dictionary puts each key before its
    item).  Loading clears the container first and keeps what it loaded
    before a failure. */
module Database {
  import opened Wrappers
  import opened Text
  import opened Binary

  // ---------------------------------------------------------------------
  // The stream layout of a list
  // ---------------------------------------------------------------------

  /** The outcome of loading a list: the result, the items and the reader's
      position. */
  datatype Loaded<T> = Loaded(ok: bool, items: seq<T>, pos: nat)

  /** Loading n more items from position pos onto acc, stopping at the
      first item that fails to load. */
  function LoadItems<T>(c: Codec<T>, s: seq<Token>, pos: nat, n: int, acc: seq<T>): (r: Loaded<T>)
    requires Bounded(c) && pos <= |s|
    ensures pos <= r.pos <= |s|
    decreases if n > 0 then n else 0
  {
    if n <= 0 then Loaded(true, acc, pos)
    else match LoadAt(c, s, pos)
      case None => Loaded(false, acc, pos)
      case Some(it) => LoadItems(c, s, pos + it.used, n - 1, acc + [it.value])
  }

  /** What saving the items writes, and whether every item saved; the
      first failing item ends the output, its partial output included. */
  function SaveItems<T>(c: Codec<T>, xs: seq<T>): Saved {
    if xs == [] then Saved(true, [])
    else
      var first := c.save(xs[0]);
      if !first.ok then first
      else
        var rest := SaveItems(c, xs[1..]);
        Saved(rest.ok, first.tokens + rest.tokens)
  }

  /** A load returns what it was given followed by what it read: all n
      items on success, fewer on failure. */
  lemma {:induction false} LoadItemsShape<T>(c: Codec<T>, s: seq<Token>, pos: nat, n: int, acc: seq<T>)
    requires Bounded(c) && pos <= |s|
    ensures acc <= LoadItems(c, s, pos, n, acc).items
    ensures LoadItems(c, s, pos, n, acc).ok ==>
      |LoadItems(c, s, pos, n, acc).items| == |acc| + (if n > 0 then n else 0)
    ensures !LoadItems(c, s, pos, n, acc).ok ==> |LoadItems(c, s, pos, n, acc).items| < |acc| + n
    decreases if n > 0 then n else 0
  {
    if n > 0 {
      match LoadAt(c, s, pos)
      case None =>
      case Some(it) =>
        LoadItemsShape(c, s, pos + it.used, n - 1, acc + [it.value]);
    }
  }

  /** Loading what SaveItems wrote, wherever it sits in the stream, gives
      back every item and stops right after them. */
  lemma {:induction false} LoadSavedItems<T(!new)>(c: Codec<T>, xs: seq<T>, s: seq<Token>, pos: nat, after: seq<Token>, acc: seq<T>)
    requires Sound(c) && SaveItems(c, xs).ok
    requires pos <= |s| && s[pos..] == SaveItems(c, xs).tokens + after
    ensures LoadItems(c, s, pos, |xs|, acc) == Loaded(true, acc + xs, pos + |SaveItems(c, xs).tokens|)
    decreases |xs|
  {
    if xs == [] {
      assert acc + xs == acc;
    } else {
      SavedItemsTail(c, xs, s, pos, after);
      LoadSavedItems(c, xs[1..], s, pos + |c.save(xs[0]).tokens|, after, acc + [xs[0]]);
      FirstItemLoads(c, xs, s, pos, after, acc);
    }
  }

  /** After the first item, the rest save successfully and their output
      starts right after the first item's. */
  lemma SavedItemsTail<T>(c: Codec<T>, xs: seq<T>, s: seq<Token>, pos: nat, after: seq<Token>)
    requires xs != [] && SaveItems(c, xs).ok
    requires pos <= |s| && s[pos..] == SaveItems(c, xs).tokens + after
    ensures c.save(xs[0]).ok && SaveItems(c, xs[1..]).ok
    ensures pos + |c.save(xs[0]).tokens| <= |s|
    ensures s[pos + |c.save(xs[0]).tokens|..] == SaveItems(c, xs[1..]).tokens + after
  {
    var first := c.save(xs[0]);
    var rest := SaveItems(c, xs[1..]);
    assert SaveItems(c, xs) == Saved(rest.ok, first.tokens + rest.tokens);
    ItemAt(s, pos, first.tokens, rest.tokens, after);
  }

  /** When the rest of the items load back from where the first item's
      output ends, all of them load back from where it starts. */
  lemma FirstItemLoads<T(!new)>(c: Codec<T>, xs: seq<T>, s: seq<Token>, pos: nat, after: seq<Token>, acc: seq<T>)
    requires Sound(c) && xs != [] && SaveItems(c, xs).ok
    requires pos <= |s| && s[pos..] == SaveItems(c, xs).tokens + after
    requires pos + |c.save(xs[0]).tokens| <= |s|
    requires LoadItems(c, s, pos + |c.save(xs[0]).tokens|, |xs[1..]|, acc + [xs[0]])
      == Loaded(true, acc + [xs[0]] + xs[1..], pos + |c.save(xs[0]).tokens| + |SaveItems(c, xs[1..]).tokens|)
    ensures LoadItems(c, s, pos, |xs|, acc) == Loaded(true, acc + xs, pos + |SaveItems(c, xs).tokens|)
  {
    var first := c.save(xs[0]);
    var rest := SaveItems(c, xs[1..]);
    assert SaveItems(c, xs) == Saved(rest.ok, first.tokens + rest.tokens);
    AppendAssoc(first.tokens, rest.tokens, after);
    ItemLoads(c, s, pos, |xs|, |xs[1..]|, acc, xs[0], rest.tokens + after);
    ConsTail(acc, xs);
  }

  /** A saved item loads back and the load goes on right after it. */
  lemma ItemLoads<T(!new)>(c: Codec<T>, s: seq<Token>, pos: nat, n: int, n': int, acc: seq<T>, x: T, rest: seq<Token>)
    requires Sound(c) && c.save(x).ok && n > 0 && n' == n - 1
    requires pos <= |s| && s[pos..] == c.save(x).tokens + rest
    ensures pos + |c.save(x).tokens| <= |s|
    ensures LoadItems(c, s, pos, n, acc) == LoadItems(c, s, pos + |c.save(x).tokens|, n', acc + [x])
  {
    assert LoadsBack(c, x, rest);
    LoadItemsStep(c, s, pos, n, n', acc, Item(x, |c.save(x).tokens|));
  }

  /** Where an item's output starts the rest of the stream. */
  lemma ItemAt(s: seq<Token>, pos: nat, item: seq<Token>, rest: seq<Token>, after: seq<Token>)
    requires pos <= |s| && s[pos..] == item + rest + after
    ensures s[pos..] == item + (rest + after)
    ensures pos + |item| <= |s| && s[pos + |item|..] == rest + after
  {
    AppendAssoc(item, rest, after);
    assert s[pos + |item|..] == s[pos..][|item|..];
  }

  /** The accumulator grows by the head, then by the tail. */
  lemma ConsTail<T>(acc: seq<T>, xs: seq<T>)
    requires xs != []
    ensures acc + [xs[0]] + xs[1..] == acc + xs
  {
    assert xs == [xs[0]] + xs[1..];
    AppendAssoc(acc, [xs[0]], xs[1..]);
  }

  /** One successful step of LoadItems. */
  lemma LoadItemsStep<T>(c: Codec<T>, s: seq<Token>, pos: nat, n: int, n': int, acc: seq<T>, it: Item<T>)
    requires Bounded(c) && pos <= |s| && n > 0 && n' == n - 1 && LoadAt(c, s, pos) == Some(it)
    ensures pos + it.used <= |s|
    ensures LoadItems(c, s, pos, n, acc) == LoadItems(c, s, pos + it.used, n', acc + [it.value])
  {
  }

  // ---------------------------------------------------------------------
  // IndexedDatabase
  // ---------------------------------------------------------------------

  /** The first position of x in xs, or -1 (List.IndexOf). */
  function FirstIndex<T(==)>(xs: seq<T>, x: T): (i: int)
    ensures -1 <= i < |xs|
    ensures i >= 0 ==> xs[i] == x && x !in xs[..i]
    ensures i == -1 <==> x !in xs
  {
    if xs == [] then -1
    else if xs[0] == x then 0
    else
      var j := FirstIndex(xs[1..], x);
      assert xs == [xs[0]] + xs[1..];
      if j == -1 then -1
      else
        assert xs[..j + 1] == [xs[0]] + xs[1..][..j];
        j + 1
  }

  /** IndexedDatabase<T>: a list of items addressed by position. */
  class IndexedDatabase<T(==)> {
    var items: seq<T>

    /** new IndexedDatabase(). */
    constructor ()
      ensures items == []
    {
      items := [];
    }

    /** new IndexedDatabase(params T[] items). */
    constructor Of(xs: seq<T>)
      ensures items == xs
    {
      items := xs;
    }

    function Count(): nat
      reads this
    {
      |items|
    }

    predicate Empty()
      reads this
    {
      Count() == 0
    }

    /** IndexOf: the first position holding item, or -1. */
    function IndexOf(item: T): (i: int)
      reads this
      ensures -1 <= i < |items|
      ensures i >= 0 ==> items[i] == item && item !in items[..i]
      ensures i == -1 <==> item !in items
    {
      FirstIndex(items, item)
    }

    /** Contains: whether some position holds item, which is whether
        IndexOf finds it; Get at that position gives the item back. */
    function Contains(item: T): (b: bool)
      reads this
      ensures b <==> IndexOf(item) != -1
      ensures b ==> Get(IndexOf(item)) == Some(item)
    {
      item in items
    }

    /** Get: the item at index, or the default (None) outside [0, Count). */
    function Get(index: int): Option<T>
      reads this
    {
      if index < 0 || index >= Count() then None else Some(items[index])
    }

    /** Set: replaces the item at index; nothing happens outside
        [0, Count). */
    method Set(index: int, item: T)
      modifies this
      ensures |items| == |old(items)|
      ensures 0 <= index < |items| ==> items == old(items)[index := item]
      ensures !(0 <= index < |items|) ==> items == old(items)
      ensures Count() == old(Count())
      ensures 0 <= index < Count() ==> Get(index) == Some(item)
      ensures forall j :: j != index ==> Get(j) == old(Get(j))
    {
      if index < 0 || index >= Count() {
        return;
      }
      items := items[index := item];
    }

    /** Add: appends item. */
    method Add(item: T)
      modifies this
      ensures items == old(items) + [item]
      ensures Count() == old(Count()) + 1 && Get(old(Count())) == Some(item) && Contains(item)
      ensures forall j :: j != old(Count()) ==> Get(j) == old(Get(j))
    {
      items := items + [item];
    }

    /** Insert: index is clamped into [0, Count], so the item always goes
        in and every other item keeps its order. */
    method Insert(index: int, item: T)
      modifies this
      ensures |items| == |old(items)| + 1
      ensures var p := if index < 0 then 0 else if index > |old(items)| then |old(items)| else index;
        items == old(items)[..p] + [item] + old(items)[p..]
      ensures Count() == old(Count()) + 1 && Contains(item)
    {
      var p := if index < 0 then 0 else if index > Count() then Count() else index;
      items := items[..p] + [item] + items[p..];
    }

    /** RemoveAt: removes the item at index; nothing happens outside
        [0, Count). */
    method RemoveAt(index: int)
      modifies this
      ensures 0 <= index < |old(items)| ==> items == old(items)[..index] + old(items)[index + 1..]
      ensures !(0 <= index < |old(items)|) ==> items == old(items)
      ensures Count() == if 0 <= index < old(Count()) then old(Count()) - 1 else old(Count())
      ensures forall j :: j < index ==> Get(j) == old(Get(j))
      ensures 0 <= index ==> forall j :: j >= index ==> Get(j) == old(Get(j + 1))
    {
      if index < 0 || index >= Count() {
        return;
      }
      items := items[..index] + items[index + 1..];
    }

    /** Remove: removes the first occurrence of item, if any. */
    method Remove(item: T)
      modifies this
      ensures item !in old(items) ==> items == old(items)
      ensures item in old(items) ==> exists i :: (0 <= i < |old(items)| && old(items)[i] == item
        && item !in old(items)[..i] && items == old(items)[..i] + old(items)[i + 1..])
      ensures multiset(items) == multiset(old(items)) - multiset{item}
      ensures Count() == if old(Contains(item)) then old(Count()) - 1 else old(Count())
    {
      var i := IndexOf(item);
      if i >= 0 {
        assert old(items) == old(items)[..i] + [item] + old(items)[i + 1..];
      }
      RemoveAt(i);
    }

    /** Clear: no items. */
    method Clear()
      modifies this
      ensures items == []
      ensures Count() == 0 && forall x :: !Contains(x)
    {
      items := [];
    }

    /** LoadFromStream: the count, then that many items.  A missing count
        fails before anything changes; otherwise the list is cleared and
        keeps every item loaded before a failing one.  A count of zero or
        less loads nothing and succeeds. */
    method LoadFromStream(r: Reader, c: Codec<T>) returns (ok: bool)
      requires r.Valid() && Bounded(c)
      modifies this, r
      ensures r.Valid()
      ensures IntAt(r.tokens, old(r.pos)).None? ==> !ok && items == old(items) && r.pos == old(r.pos)
      ensures IntAt(r.tokens, old(r.pos)).Some? ==>
        Loaded(ok, items, r.pos) == LoadItems(c, r.tokens, old(r.pos) + 1, IntAt(r.tokens, old(r.pos)).value, [])
    {
      var count := r.ReadInt32();
      if count.None? {
        return false;
      }
      ghost var start := r.pos;
      items := [];
      var i := 0;
      while i < count.value
        invariant r.Valid() && start <= r.pos
        invariant LoadItems(c, r.tokens, r.pos, count.value - i, items)
          == LoadItems(c, r.tokens, start, count.value, [])
        decreases count.value - i
      {
        ok := LoadNext(r, c, count.value - i);
        if !ok {
          return false;
        }
        i := i + 1;
      }
      return true;
    }

    /** One pass of the loop in LoadFromStream: a new item loaded from the
        stream, then added to the list. */
    method LoadNext(r: Reader, c: Codec<T>, n: int) returns (ok: bool)
      requires r.Valid() && Bounded(c) && n > 0
      modifies this, r
      ensures r.Valid() && old(r.pos) <= r.pos
      ensures LoadItems(c, r.tokens, old(r.pos), n, old(items))
        == if ok then LoadItems(c, r.tokens, r.pos, n - 1, items) else Loaded(false, items, r.pos)
    {
      ghost var here := r.pos;
      var item := LoadItem(r, c);
      if item.None? {
        return false;
      }
      ghost var it := LoadAt(c, r.tokens, here).value;
      assert r.pos == here + it.used && item.value == it.value;
      LoadItemsStep(c, r.tokens, here, n, n - 1, items, it);
      items := items + [item.value];
      return true;
    }

    /** SaveToStream: the count, then each item in order; the first item
        that fails to save ends the output and the result is false. */
    method SaveToStream(w: Writer, c: Codec<T>) returns (ok: bool)
      requires InInt32(|items|)
      modifies w
      ensures ok == SaveItems(c, items).ok
      ensures w.tokens == old(w.tokens) + [Int32(|items|)] + SaveItems(c, items).tokens
    {
      w.WriteInt32(Count());
      var i := 0;
      while i < Count()
        invariant 0 <= i <= |items|
        invariant SaveItems(c, items[i..]).ok == SaveItems(c, items).ok
        invariant w.tokens + SaveItems(c, items[i..]).tokens
          == old(w.tokens) + [Int32(|items|)] + SaveItems(c, items).tokens
      {
        assert items[i..][1..] == items[i + 1..];
        var saved := c.save(items[i]);
        ghost var written := w.tokens;
        w.tokens := w.tokens + saved.tokens;
        if !saved.ok {
          return false;
        }
        AppendAssoc(written, saved.tokens, SaveItems(c, items[i + 1..]).tokens);
        i := i + 1;
      }
      return true;
    }
  }

  /** What SaveToStream writes for a list, read back by LoadFromStream from
      where it starts, gives the same list and ends right after it. */
  lemma IndexedRoundTrip<T(!new)>(c: Codec<T>, xs: seq<T>, before: seq<Token>, after: seq<Token>)
    requires Sound(c) && SaveItems(c, xs).ok && InInt32(|xs|)
    ensures var s := before + [Int32(|xs|)] + SaveItems(c, xs).tokens + after;
      IntAt(s, |before|) == Some(|xs|)
      && LoadItems(c, s, |before| + 1, |xs|, [])
        == Loaded(true, xs, |before| + 1 + |SaveItems(c, xs).tokens|)
  {
    var head := before + [Int32(|xs|)];
    var tail := SaveItems(c, xs).tokens + after;
    AppendAssoc(head, SaveItems(c, xs).tokens, after);
    assert (head + tail)[|head|..] == tail;
    assert (head + tail)[|before|] == Int32(|xs|);
    LoadSavedItems(c, xs, head + tail, |head|, after, []);
  }

  // ---------------------------------------------------------------------
  // The stream layout of a dictionary
  // ---------------------------------------------------------------------

  /** The outcome of loading a dictionary. */
  datatype MapLoaded<T> = MapLoaded(ok: bool, items: map<string, T>, pos: nat)

  /** Loading n more key/item pairs from position pos into acc.  A missing
      key, an item that fails to load, or a key already present (the
      dictionary's Add throws) ends the load with false. */
  function LoadEntries<T>(c: Codec<T>, s: seq<Token>, pos: nat, n: int, acc: map<string, T>): (r: MapLoaded<T>)
    requires Bounded(c) && pos <= |s|
    ensures pos <= r.pos <= |s|
    decreases if n > 0 then n else 0
  {
    if n <= 0 then MapLoaded(true, acc, pos)
    else match StrAt(s, pos)
      case None => MapLoaded(false, acc, pos)
      case Some(key) =>
        match LoadAt(c, s, pos + 1)
        case None => MapLoaded(false, acc, pos + 1)
        case Some(it) =>
          if key in acc then MapLoaded(false, acc, pos + 1 + it.used)
          else LoadEntries(c, s, pos + 1 + it.used, n - 1, acc[key := it.value])
  }

  /** Where a key token and an item's output start the rest of the
      stream. */
  lemma EntryAt(s: seq<Token>, pos: nat, key: string, item: seq<Token>, rest: seq<Token>)
    requires pos <= |s| && s[pos..] == [Str(key)] + item + rest
    ensures pos + 1 + |item| <= |s| && s[pos] == Str(key)
    ensures s[pos + 1..] == item + rest
    ensures s[pos + 1 + |item|..] == rest
  {
    AppendAssoc([Str(key)], item, rest);
    assert s[pos + 1..] == s[pos..][1..];
    assert s[pos + 1 + |item|..] == s[pos..][1 + |item|..];
  }

  /** One successful step of LoadEntries. */
  lemma LoadEntriesStep<T>(c: Codec<T>, s: seq<Token>, pos: nat, n: int, acc: map<string, T>, key: string, x: T, used: nat)
    requires Bounded(c) && pos < |s| && n > 0
    requires s[pos] == Str(key) && key !in acc && LoadAt(c, s, pos + 1) == Some(Item(x, used))
    ensures pos + 1 + used <= |s|
    ensures LoadEntries(c, s, pos, n, acc) == LoadEntries(c, s, pos + 1 + used, n - 1, acc[key := x])
  {
  }

  /** The keys listed once each, all of them keys of m. */
  predicate Listed<T>(order: seq<string>, m: map<string, T>) {
    (forall i, j :: 0 <= i < j < |order| ==> order[i] != order[j])
    && forall k :: k in order ==> k in m
  }

  /** What saving the entries in the given order writes: each key, then
      its item; the first item that fails to save ends the output. */
  function SaveEntries<T>(c: Codec<T>, m: map<string, T>, order: seq<string>): Saved
    requires forall k :: k in order ==> k in m
  {
    if order == [] then Saved(true, [])
    else
      var first := c.save(m[order[0]]);
      if !first.ok then Saved(false, [Str(order[0])] + first.tokens)
      else
        var rest := SaveEntries(c, m, order[1..]);
        Saved(rest.ok, [Str(order[0])] + first.tokens + rest.tokens)
  }

  /** Saving one more entry after a successful prefix adds that entry's
      output. */
  lemma {:induction false} SaveEntriesSnoc<T>(c: Codec<T>, m: map<string, T>, order: seq<string>, key: string)
    requires key in m && forall k :: k in order ==> k in m
    requires SaveEntries(c, m, order).ok
    ensures SaveEntries(c, m, order + [key])
      == Saved(c.save(m[key]).ok, SaveEntries(c, m, order).tokens + [Str(key)] + c.save(m[key]).tokens)
    decreases |order|
  {
    if order == [] {
      assert order + [key] == [key];
    } else {
      assert (order + [key])[1..] == order[1..] + [key];
      SaveEntriesSnoc(c, m, order[1..], key);
      var first := [Str(order[0])] + c.save(m[order[0]]).tokens;
      var rest := SaveEntries(c, m, order[1..]).tokens;
      var last := [Str(key)] + c.save(m[key]).tokens;
      AppendAssoc(first, rest, last);
      AppendAssoc(first + rest, [Str(key)], c.save(m[key]).tokens);
      AppendAssoc(first, rest + [Str(key)], c.save(m[key]).tokens);
      AppendAssoc(rest, [Str(key)], c.save(m[key]).tokens);
    }
  }

  /** The entries of m whose keys are listed. */
  function Restrict<T>(m: map<string, T>, order: seq<string>): (r: map<string, T>)
    ensures forall k :: k in r <==> k in m && k in order
  {
    map k | k in m && k in order :: m[k]
  }

  /** Adding the listed entries of m to acc one by one, as a load does. */
  function AddAll<T>(acc: map<string, T>, m: map<string, T>, order: seq<string>): map<string, T>
    requires forall k :: k in order ==> k in m
    decreases |order|
  {
    if order == [] then acc else AddAll(acc[order[0] := m[order[0]]], m, order[1..])
  }

  /** Adding entries one by one gives acc extended with the listed part of
      m, whatever the order. */
  lemma {:induction false} AddAllRestricts<T>(acc: map<string, T>, m: map<string, T>, order: seq<string>)
    requires forall k :: k in order ==> k in m
    ensures AddAll(acc, m, order) == acc + Restrict(m, order)
    decreases |order|
  {
    if order == [] {
      assert acc + Restrict(m, order) == acc;
    } else {
      AddAllRestricts(acc[order[0] := m[order[0]]], m, order[1..]);
      AddThenRestrict(acc, m, order);
    }
  }

  /** Adding the first listed entry and then the rest of the listed part
      of m is adding the whole listed part. */
  lemma AddThenRestrict<T>(acc: map<string, T>, m: map<string, T>, order: seq<string>)
    requires order != [] && forall k :: k in order ==> k in m
    ensures acc[order[0] := m[order[0]]] + Restrict(m, order[1..]) == acc + Restrict(m, order)
  {
    var key := order[0];
    var lhs := acc[key := m[key]] + Restrict(m, order[1..]);
    var rhs := acc + Restrict(m, order);
    assert order == [key] + order[1..];
    assert forall k :: k in order <==> k == key || k in order[1..];
    assert lhs.Keys == rhs.Keys;
    forall k | k in lhs
      ensures lhs[k] == rhs[k]
    {
      if k in order {
        assert rhs[k] == m[k];
      }
    }
  }

  /** None of the listed keys is in acc. */
  predicate NoneIn<T>(order: seq<string>, acc: map<string, T>) {
    forall i :: 0 <= i < |order| ==> order[i] !in acc
  }

  /** After the first listed key is added, the rest are still listed and
      still absent. */
  lemma ListedTail<T>(order: seq<string>, m: map<string, T>, acc: map<string, T>)
    requires order != [] && Listed(order, m) && NoneIn(order, acc)
    ensures order[0] in m && order[0] !in acc
    ensures Listed(order[1..], m) && NoneIn(order[1..], acc[order[0] := m[order[0]]])
  {
    assert order[0] in order;
    forall i | 0 <= i < |order[1..]|
      ensures order[1..][i] !in acc[order[0] := m[order[0]]]
    {
      assert order[1..][i] == order[i + 1];
    }
  }

  /** Adding the listed entries of m to acc one by one never meets a key
      already there. */
  predicate AddsFresh<T>(order: seq<string>, m: map<string, T>, acc: map<string, T>)
    decreases |order|
  {
    order == [] || (order[0] in m && order[0] !in acc && AddsFresh(order[1..], m, acc[order[0] := m[order[0]]]))
  }

  /** Distinct keys of m, none of them in acc, are added fresh. */
  lemma {:induction false} ListedAddsFresh<T>(order: seq<string>, m: map<string, T>, acc: map<string, T>)
    requires Listed(order, m) && NoneIn(order, acc)
    ensures AddsFresh(order, m, acc)
    decreases |order|
  {
    if order != [] {
      ListedTail(order, m, acc);
      ListedAddsFresh(order[1..], m, acc[order[0] := m[order[0]]]);
    }
  }

  /** The entries of m in the given order, as key/item pairs. */
  function Pairs<T>(m: map<string, T>, order: seq<string>): (ps: seq<(string, T)>)
    requires forall k :: k in order ==> k in m
    ensures |ps| == |order|
    ensures forall i :: 0 <= i < |order| ==> ps[i] == (order[i], m[order[i]])
  {
    seq(|order|, i requires 0 <= i < |order| => (order[i], m[order[i]]))
  }

  /** SaveEntries over the pairs: each key, then its item; the first item
      that fails to save ends the output. */
  function SavePairs<T>(c: Codec<T>, ps: seq<(string, T)>): Saved
    decreases |ps|
  {
    if ps == [] then Saved(true, [])
    else
      var first := c.save(ps[0].1);
      if !first.ok then Saved(false, [Str(ps[0].0)] + first.tokens)
      else
        var rest := SavePairs(c, ps[1..]);
        Saved(rest.ok, [Str(ps[0].0)] + first.tokens + rest.tokens)
  }

  /** AddAll over the pairs. */
  function AddPairs<T>(acc: map<string, T>, ps: seq<(string, T)>): map<string, T>
    decreases |ps|
  {
    if ps == [] then acc else AddPairs(acc[ps[0].0 := ps[0].1], ps[1..])
  }

  /** AddsFresh over the pairs. */
  predicate FreshPairs<T>(ps: seq<(string, T)>, acc: map<string, T>)
    decreases |ps|
  {
    ps == [] || (ps[0].0 !in acc && FreshPairs(ps[1..], acc[ps[0].0 := ps[0].1]))
  }

  /** Dropping the first key drops the first pair. */
  lemma PairsTail<T>(m: map<string, T>, order: seq<string>)
    requires order != [] && forall k :: k in order ==> k in m
    ensures order[0] in m && Pairs(m, order)[0] == (order[0], m[order[0]])
    ensures (forall k :: k in order[1..] ==> k in m) && Pairs(m, order)[1..] == Pairs(m, order[1..])
  {
    assert order[0] in order;
  }

  /** SaveEntries, AddAll and AddsFresh are their pair forms on the pairs
      of m in that order. */
  lemma {:induction false} EntriesArePairs<T>(c: Codec<T>, m: map<string, T>, order: seq<string>, acc: map<string, T>)
    requires forall k :: k in order ==> k in m
    ensures SaveEntries(c, m, order) == SavePairs(c, Pairs(m, order))
    ensures AddAll(acc, m, order) == AddPairs(acc, Pairs(m, order))
    ensures AddsFresh(order, m, acc) ==> FreshPairs(Pairs(m, order), acc)
    decreases |order|
  {
    if order != [] {
      PairsTail(m, order);
      EntriesArePairs(c, m, order[1..], acc[order[0] := m[order[0]]]);
    }
  }

  /** Loading what SavePairs wrote into a dictionary that holds none of
      the keys adds those entries in order. */
  lemma {:induction false} LoadSavedPairs<T(!new)>(c: Codec<T>, ps: seq<(string, T)>,
                                                   s: seq<Token>, pos: nat, after: seq<Token>, acc: map<string, T>)
    requires Sound(c) && FreshPairs(ps, acc)
    requires SavePairs(c, ps).ok && pos <= |s| && s[pos..] == SavePairs(c, ps).tokens + after
    ensures LoadEntries(c, s, pos, |ps|, acc) == MapLoaded(true, AddPairs(acc, ps), pos + |SavePairs(c, ps).tokens|)
    decreases |ps|
  {
    if ps == [] {
      assert SavePairs(c, ps) == Saved(true, []);
    } else {
      var key, x := ps[0].0, ps[0].1;
      SavedPairsTail(c, ps, key, x, s, pos, after, acc);
      LoadSavedPairs(c, ps[1..], s, pos + 1 + |c.save(x).tokens|, after, acc[key := x]);
      FirstPairLoads(c, ps, key, x, s, pos, after, acc);
    }
  }

  /** After the first pair, key and x, the remaining pairs are fresh, save
      successfully, and their output starts right after the first item's. */
  lemma SavedPairsTail<T(!new)>(c: Codec<T>, ps: seq<(string, T)>, key: string, x: T,
                                s: seq<Token>, pos: nat, after: seq<Token>, acc: map<string, T>)
    requires FreshPairs(ps, acc)
    requires SavePairs(c, ps).ok && pos <= |s| && s[pos..] == SavePairs(c, ps).tokens + after
    requires ps != [] && key == ps[0].0 && x == ps[0].1
    ensures FreshPairs(ps[1..], acc[key := x]) && SavePairs(c, ps[1..]).ok
    ensures pos + 1 + |c.save(x).tokens| <= |s| && s[pos + 1 + |c.save(x).tokens|..] == SavePairs(c, ps[1..]).tokens + after
  {
    var rest := SavePairs(c, ps[1..]);
    assert SavePairs(c, ps) == Saved(rest.ok, [Str(key)] + c.save(x).tokens + rest.tokens);
    AppendAssoc([Str(key)] + c.save(x).tokens, rest.tokens, after);
    EntryAt(s, pos, key, c.save(x).tokens, rest.tokens + after);
  }

  /** When the remaining pairs load back from where the first pair's
      output ends, all the pairs load back from where it starts. */
  lemma FirstPairLoads<T(!new)>(c: Codec<T>, ps: seq<(string, T)>, key: string, x: T,
                                s: seq<Token>, pos: nat, after: seq<Token>, acc: map<string, T>)
    requires Sound(c) && FreshPairs(ps, acc)
    requires SavePairs(c, ps).ok && pos <= |s| && s[pos..] == SavePairs(c, ps).tokens + after
    requires ps != [] && key == ps[0].0 && x == ps[0].1
    requires pos + 1 + |c.save(x).tokens| <= |s|
    requires LoadEntries(c, s, pos + 1 + |c.save(x).tokens|, |ps[1..]|, acc[key := x])
      == MapLoaded(true, AddPairs(acc[key := x], ps[1..]), pos + 1 + |c.save(x).tokens| + |SavePairs(c, ps[1..]).tokens|)
    ensures LoadEntries(c, s, pos, |ps|, acc) == MapLoaded(true, AddPairs(acc, ps), pos + |SavePairs(c, ps).tokens|)
  {
    var rest := SavePairs(c, ps[1..]);
    assert SavePairs(c, ps) == Saved(rest.ok, [Str(key)] + c.save(x).tokens + rest.tokens);
    AppendAssoc([Str(key)] + c.save(x).tokens, rest.tokens, after);
    EntryLoads(c, s, pos, |ps|, |ps[1..]|, acc, key, x, rest.tokens + after);
  }

  /** Loading what SaveEntries wrote into a dictionary that holds none of
      the listed keys adds those entries in order. */
  lemma LoadSavedEntries<T(!new)>(c: Codec<T>, m: map<string, T>, order: seq<string>,
                                  s: seq<Token>, pos: nat, after: seq<Token>, acc: map<string, T>)
    requires Sound(c) && (forall k :: k in order ==> k in m) && AddsFresh(order, m, acc)
    requires SaveEntries(c, m, order).ok && pos <= |s| && s[pos..] == SaveEntries(c, m, order).tokens + after
    ensures LoadEntries(c, s, pos, |order|, acc) == MapLoaded(true, AddAll(acc, m, order), pos + |SaveEntries(c, m, order).tokens|)
  {
    EntriesArePairs(c, m, order, acc);
    LoadSavedPairs(c, Pairs(m, order), s, pos, after, acc);
  }

  /** A key token followed by a saved item loads back as that entry. */
  lemma EntryLoads<T(!new)>(c: Codec<T>, s: seq<Token>, pos: nat, n: int, n': int, acc: map<string, T>,
                            key: string, x: T, rest: seq<Token>)
    requires Sound(c) && c.save(x).ok && key !in acc && n > 0 && n' == n - 1
    requires pos <= |s| && s[pos..] == [Str(key)] + c.save(x).tokens + rest
    ensures pos + 1 + |c.save(x).tokens| <= |s|
    ensures s[pos + 1 + |c.save(x).tokens|..] == rest
    ensures LoadEntries(c, s, pos, n, acc) == LoadEntries(c, s, pos + 1 + |c.save(x).tokens|, n', acc[key := x])
  {
    EntryAt(s, pos, key, c.save(x).tokens, rest);
    assert LoadsBack(c, x, rest);
    LoadEntriesStep(c, s, pos, n, acc, key, x, |c.save(x).tokens|);
  }

  /** A stream that repeats a key fails at the repeat, keeping the first
      entry. */
  lemma DuplicateKeyFails<T(!new)>(c: Codec<T>, key: string, x: T, y: T)
    requires Sound(c) && c.save(x).ok && c.save(y).ok
    ensures var s := [Int32(2), Str(key)] + c.save(x).tokens + [Str(key)] + c.save(y).tokens;
      LoadEntries(c, s, 1, 2, map[]).ok == false
      && LoadEntries(c, s, 1, 2, map[]).items == map[key := x]
  {
    var tx, ty := c.save(x).tokens, c.save(y).tokens;
    var s := [Int32(2), Str(key)] + tx + [Str(key)] + ty;
    assert s[2..] == tx + ([Str(key)] + ty);
    assert LoadsBack(c, x, [Str(key)] + ty);
    var next := 2 + |tx|;
    assert s[next] == Str(key);
    assert s[next + 1..] == ty + [];
    assert LoadsBack(c, y, []);
  }

  // ---------------------------------------------------------------------
  // StringDatabase
  // ---------------------------------------------------------------------

  /** A value of a map is one some key maps to. */
  lemma HeldValue<T>(m: map<string, T>, v: T)
    ensures v in m.Values <==> exists k :: k in m && m[k] == v
  {
    if v in m.Values {
      var k :| k in m && m[k] == v;
    }
  }

  /** StringDatabase<T>: items addressed by string keys. */
  class StringDatabase<T(==)> {
    var items: map<string, T>

    /** new StringDatabase(). */
    constructor ()
      ensures items == map[]
    {
      items := map[];
    }

    function Count(): nat
      reads this
    {
      |items|
    }

    predicate Empty()
      reads this
    {
      Count() == 0
    }

    /** ContainsKey: whether key is present. */
    function ContainsKey(key: string): bool
      reads this
    {
      key in items
    }

    /** Contains: whether some present key holds item, as Get shows. */
    function Contains(item: T): (b: bool)
      reads this
      ensures b <==> exists k :: ContainsKey(k) && Get(k) == Some(item)
    {
      HeldValue(items, item);
      if item in items.Values then
        var k :| k in items && items[k] == item;
        assert ContainsKey(k) && Get(k) == Some(item);
        true
      else
        false
    }

    /** Get: the item under key, or the default (None) for a missing key. */
    function Get(key: string): Option<T>
      reads this
    {
      if !ContainsKey(key) then None else Some(items[key])
    }

    /** Add: a key already present makes the dictionary throw, which here
        is a false result with nothing changed. */
    method Add(key: string, item: T) returns (ok: bool)
      modifies this
      ensures ok <==> key !in old(items)
      ensures items == if ok then old(items)[key := item] else old(items)
      ensures ok <==> !old(ContainsKey(key))
      ensures ContainsKey(key) && Get(key) == if ok then Some(item) else old(Get(key))
      ensures Count() == if ok then old(Count()) + 1 else old(Count())
      ensures forall k :: k != key ==> Get(k) == old(Get(k))
    {
      if key in items {
        return false;
      }
      items := items[key := item];
      return true;
    }

    /** Remove: a missing key changes nothing. */
    method Remove(key: string)
      modifies this
      ensures items == old(items) - {key}
      ensures key !in old(items) ==> items == old(items)
      ensures !ContainsKey(key) && Get(key) == None
      ensures Count() == if old(ContainsKey(key)) then old(Count()) - 1 else old(Count())
      ensures forall k :: k != key ==> Get(k) == old(Get(k))
    {
      if !ContainsKey(key) {
        return;
      }
      items := items - {key};
    }

    method Clear()
      modifies this
      ensures items == map[]
      ensures Count() == 0 && forall k :: !ContainsKey(k)
    {
      items := map[];
    }

    /** LoadFromStream: the count, then each key and item.  A missing count
        fails before anything changes; otherwise the dictionary is cleared
        and keeps the entries loaded before the failure. */
    method LoadFromStream(r: Reader, c: Codec<T>) returns (ok: bool)
      requires r.Valid() && Bounded(c)
      modifies this, r
      ensures r.Valid()
      ensures IntAt(r.tokens, old(r.pos)).None? ==> !ok && items == old(items) && r.pos == old(r.pos)
      ensures IntAt(r.tokens, old(r.pos)).Some? ==>
        MapLoaded(ok, items, r.pos) == LoadEntries(c, r.tokens, old(r.pos) + 1, IntAt(r.tokens, old(r.pos)).value, map[])
    {
      var count := r.ReadInt32();
      if count.None? {
        return false;
      }
      ghost var start := r.pos;
      items := map[];
      var i := 0;
      while i < count.value
        invariant r.Valid() && start <= r.pos
        invariant LoadEntries(c, r.tokens, r.pos, count.value - i, items)
          == LoadEntries(c, r.tokens, start, count.value, map[])
        decreases count.value - i
      {
        ok := LoadEntry(r, c, count.value - i);
        if !ok {
          return false;
        }
        i := i + 1;
      }
      return true;
    }

    /** One pass of the loop in LoadFromStream: a key, a new item loaded
        from the stream, and Add. */
    method LoadEntry(r: Reader, c: Codec<T>, n: int) returns (ok: bool)
      requires r.Valid() && Bounded(c) && n > 0
      modifies this, r
      ensures r.Valid() && old(r.pos) <= r.pos
      ensures LoadEntries(c, r.tokens, old(r.pos), n, old(items))
        == if ok then LoadEntries(c, r.tokens, r.pos, n - 1, items) else MapLoaded(false, items, r.pos)
    {
      var key := r.ReadString();
      if key.None? {
        return false;
      }
      var item := LoadItem(r, c);
      if item.None? {
        return false;
      }
      ok := Add(key.value, item.value);
    }

    /** SaveToStream: the count, then each key and its item in the
        dictionary's enumeration order, which the model leaves open; a
        successful save lists every key once. */
    method SaveToStream(w: Writer, c: Codec<T>) returns (ok: bool)
      requires InInt32(|items|)
      modifies w
      ensures exists order :: (Listed(order, items)
        && (ok ==> forall k :: k in items ==> k in order)
        && ok == SaveEntries(c, items, order).ok
        && w.tokens == old(w.tokens) + [Int32(|items|)] + SaveEntries(c, items, order).tokens)
    {
      w.WriteInt32(Count());
      var left := items.Keys;
      ghost var order: seq<string> := [];
      while left != {}
        invariant Listed(order, items)
        invariant forall k :: k in items <==> k in left || k in order
        invariant forall k :: k in left ==> k !in order
        invariant SaveEntries(c, items, order).ok
        invariant w.tokens == old(w.tokens) + [Int32(|items|)] + SaveEntries(c, items, order).tokens
        decreases left
      {
        var key :| key in left;
        ghost var before := w.tokens;
        w.WriteString(key);
        var saved := c.save(items[key]);
        w.tokens := w.tokens + saved.tokens;
        SaveEntriesSnoc(c, items, order, key);
        AppendAssoc(before, [Str(key)], saved.tokens);
        ListedSnoc(order, items, key);
        order := order + [key];
        left := left - {key};
        if !saved.ok {
          ok := false;
          assert Listed(order, items);
          return;
        }
      }
      ok := true;
    }
  }

  /** A key of the map not yet listed can be listed next. */
  lemma ListedSnoc<T>(order: seq<string>, m: map<string, T>, key: string)
    requires Listed(order, m) && key in m && key !in order
    ensures Listed(order + [key], m)
  {
    forall i, j | 0 <= i < j < |order| + 1
      ensures (order + [key])[i] != (order + [key])[j]
    {
      if j == |order| {
        assert order[i] in order;
      }
    }
  }

  /** A list of distinct keys has as many elements as the set of them. */
  lemma {:induction false} DistinctCount(order: seq<string>)
    requires forall i, j :: 0 <= i < j < |order| ==> order[i] != order[j]
    ensures |set k | k in order| == |order|
    decreases |order|
  {
    if order != [] {
      var last := order[|order| - 1];
      var init := order[..|order| - 1];
      DistinctCount(init);
      assert (set k | k in order) == (set k | k in init) + {last};
      assert last !in init;
    }
  }

  /** A list of distinct keys that names every key of m has |m| elements
      and restricts m to itself. */
  lemma ListedAll<T>(m: map<string, T>, order: seq<string>)
    requires Listed(order, m) && forall k :: k in m ==> k in order
    ensures |order| == |m| && Restrict(m, order) == m
  {
    DistinctCount(order);
    assert (set k | k in order) == m.Keys;
  }

  lemma EmptyUnion<T>(m: map<string, T>)
    ensures map[] + m == m
  {
  }

  /** What SaveToStream writes for a dictionary, in any order that lists
      every key, read back by LoadFromStream gives the same dictionary. */
  lemma StringRoundTrip<T(!new)>(c: Codec<T>, m: map<string, T>, order: seq<string>, before: seq<Token>, after: seq<Token>)
    requires Sound(c) && Listed(order, m) && forall k :: k in m ==> k in order
    requires SaveEntries(c, m, order).ok && InInt32(|m|)
    ensures var s := before + [Int32(|m|)] + SaveEntries(c, m, order).tokens + after;
      IntAt(s, |before|) == Some(|m|) && |m| == |order|
      && LoadEntries(c, s, |before| + 1, |order|, map[])
        == MapLoaded(true, m, |before| + 1 + |SaveEntries(c, m, order).tokens|)
  {
    ListedAll(m, order);
    var head := before + [Int32(|m|)];
    var tail := SaveEntries(c, m, order).tokens + after;
    AppendAssoc(head, SaveEntries(c, m, order).tokens, after);
    assert (head + tail)[|head|..] == tail;
    assert (head + tail)[|before|] == Int32(|m|);
    ListedAddsFresh(order, m, map[]);
    LoadSavedEntries(c, m, order, head + tail, |head|, after, map[]);
    AddAllRestricts(map[], m, order);
    EmptyUnion(m);
  }
}
