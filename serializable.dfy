/** BinarySerializable's file helpers for the two databases: FromFile
    builds a new database from a file, FromFile(val, path) loads into an
    existing one, and ToFile writes one out, refusing to replace an
    existing file unless asked to. */
module Serializable {
  import opened Wrappers
  import opened Text
  import opened Binary
  import opened Database
  import opened Files

  // ---------------------------------------------------------------------
  // What a load from the start of a file gives
  // ---------------------------------------------------------------------

  /** IndexedDatabase.LoadFromStream on a reader at the start of s, for a
      database holding `held`: a missing count keeps `held` and fails. */
  function IndexedLoad<T>(c: Codec<T>, s: seq<Token>, held: seq<T>): Loaded<T>
    requires Bounded(c)
  {
    match IntAt(s, 0)
    case None => Loaded(false, held, 0)
    case Some(n) => LoadItems(c, s, 1, n, [])
  }

  /** StringDatabase.LoadFromStream on a reader at the start of s. */
  function StringLoad<T>(c: Codec<T>, s: seq<Token>, held: map<string, T>): MapLoaded<T>
    requires Bounded(c)
  {
    match IntAt(s, 0)
    case None => MapLoaded(false, held, 0)
    case Some(n) => LoadEntries(c, s, 1, n, map[])
  }

  /** The file SaveToStream of a list fills: the count, then the items. */
  function IndexedImage<T>(c: Codec<T>, xs: seq<T>): seq<Token> {
    [Int32(|xs|)] + SaveItems(c, xs).tokens
  }

  /** The file SaveToStream of a dictionary fills, for the enumeration
      order `order`. */
  function StringImage<T>(c: Codec<T>, m: map<string, T>, order: seq<string>): seq<Token>
    requires forall k :: k in order ==> k in m
  {
    [Int32(|m|)] + SaveEntries(c, m, order).tokens
  }

  // ---------------------------------------------------------------------
  // IndexedDatabase
  // ---------------------------------------------------------------------

  /** FromFile<IndexedDatabase<T>>(path): a new database, returned only
      when the file opens and LoadFromStream succeeds; null otherwise. */
  method IndexedFromFile<T(==)>(fs: FileStore, path: string, c: Codec<T>) returns (db: IndexedDatabase?<T>)
    requires Bounded(c)
    ensures db == null <==> fs.BinaryFile(path).None? || !IndexedLoad(c, fs.BinaryFile(path).value, []).ok
    ensures db != null ==> fresh(db) && db.items == IndexedLoad(c, fs.BinaryFile(path).value, []).items
  {
    var val := new IndexedDatabase();
    var file := fs.BinaryFile(path);
    if file.None? {
      return null;
    }
    var r := new Reader(file.value);
    var ok := val.LoadFromStream(r, c);
    if !ok {
      return null;
    }
    return val;
  }

  /** FromFile(val, path): false when the file does not open or the load
      fails, and in the second case val already holds what was loaded
      before the failure. */
  method IndexedLoadFile<T(==)>(val: IndexedDatabase<T>, fs: FileStore, path: string, c: Codec<T>) returns (ok: bool)
    requires Bounded(c)
    modifies val
    ensures fs.BinaryFile(path).None? ==> !ok && val.items == old(val.items)
    ensures fs.BinaryFile(path).Some? ==>
      ok == IndexedLoad(c, fs.BinaryFile(path).value, old(val.items)).ok
      && val.items == IndexedLoad(c, fs.BinaryFile(path).value, old(val.items)).items
  {
    var file := fs.BinaryFile(path);
    if file.None? {
      return false;
    }
    var r := new Reader(file.value);
    ok := val.LoadFromStream(r, c);
  }

  /** ToFile(db, path, replace): an existing file is kept and the result
      is false unless replace is set; otherwise the file is deleted and
      written anew, and what SaveToStream wrote stays even when it fails. */
  method IndexedToFile<T(==)>(db: IndexedDatabase<T>, fs: FileStore, path: string, replace: bool, c: Codec<T>)
    returns (ok: bool)
    requires InInt32(|db.items|)
    modifies fs
    ensures path in old(fs.files) && !replace ==> !ok && fs.files == old(fs.files)
    ensures !(path in old(fs.files) && !replace) ==>
      ok == SaveItems(c, db.items).ok && fs.files == old(fs.files)[path := Tokens(IndexedImage(c, db.items))]
  {
    if fs.Exists(path) {
      if !replace {
        return false;
      }
      fs.files := fs.files - {path};
    }
    ghost var kept := fs.files;
    var w := new Writer();
    ok := db.SaveToStream(w, c);
    assert w.tokens == IndexedImage(c, db.items);
    fs.files := fs.files[path := Tokens(w.tokens)];
    assert fs.files == old(fs.files)[path := Tokens(w.tokens)] by {
      assert kept == old(fs.files) || kept == old(fs.files) - {path};
    }
  }

  /** A list saved to a file loads back from it, whatever the database
      held before. */
  lemma IndexedFileRoundTrip<T(!new)>(c: Codec<T>, xs: seq<T>, held: seq<T>)
    requires Sound(c) && SaveItems(c, xs).ok && InInt32(|xs|)
    ensures IndexedLoad(c, IndexedImage(c, xs), held) == Loaded(true, xs, |IndexedImage(c, xs)|)
  {
    IndexedRoundTrip(c, xs, [], []);
    assert [] + [Int32(|xs|)] + SaveItems(c, xs).tokens + [] == IndexedImage(c, xs);
  }

  // ---------------------------------------------------------------------
  // StringDatabase
  // ---------------------------------------------------------------------

  /** FromFile<StringDatabase<T>>(path). */
  method StringFromFile<T(==)>(fs: FileStore, path: string, c: Codec<T>) returns (db: StringDatabase?<T>)
    requires Bounded(c)
    ensures db == null <==> fs.BinaryFile(path).None? || !StringLoad(c, fs.BinaryFile(path).value, map[]).ok
    ensures db != null ==> fresh(db) && db.items == StringLoad(c, fs.BinaryFile(path).value, map[]).items
  {
    var val := new StringDatabase();
    var file := fs.BinaryFile(path);
    if file.None? {
      return null;
    }
    var r := new Reader(file.value);
    var ok := val.LoadFromStream(r, c);
    if !ok {
      return null;
    }
    return val;
  }

  /** FromFile(val, path) for a dictionary. */
  method StringLoadFile<T(==)>(val: StringDatabase<T>, fs: FileStore, path: string, c: Codec<T>) returns (ok: bool)
    requires Bounded(c)
    modifies val
    ensures fs.BinaryFile(path).None? ==> !ok && val.items == old(val.items)
    ensures fs.BinaryFile(path).Some? ==>
      ok == StringLoad(c, fs.BinaryFile(path).value, old(val.items)).ok
      && val.items == StringLoad(c, fs.BinaryFile(path).value, old(val.items)).items
  {
    var file := fs.BinaryFile(path);
    if file.None? {
      return false;
    }
    var r := new Reader(file.value);
    ok := val.LoadFromStream(r, c);
  }

  /** ToFile(db, path, replace) for a dictionary, in the enumeration
      order the save used. */
  method StringToFile<T(==)>(db: StringDatabase<T>, fs: FileStore, path: string, replace: bool, c: Codec<T>)
    returns (ok: bool)
    requires InInt32(|db.items|)
    modifies fs
    ensures path in old(fs.files) && !replace ==> !ok && fs.files == old(fs.files)
    ensures !(path in old(fs.files) && !replace) ==> exists order :: (Listed(order, db.items)
      && (ok ==> forall k :: k in db.items ==> k in order)
      && ok == SaveEntries(c, db.items, order).ok
      && fs.files == old(fs.files)[path := Tokens(StringImage(c, db.items, order))])
  {
    if fs.Exists(path) {
      if !replace {
        return false;
      }
      fs.files := fs.files - {path};
    }
    ghost var kept := fs.files;
    var w := new Writer();
    ok := db.SaveToStream(w, c);
    ghost var order :| Listed(order, db.items)
      && (ok ==> forall k :: k in db.items ==> k in order)
      && ok == SaveEntries(c, db.items, order).ok
      && w.tokens == [] + [Int32(|db.items|)] + SaveEntries(c, db.items, order).tokens;
    assert w.tokens == StringImage(c, db.items, order);
    fs.files := fs.files[path := Tokens(w.tokens)];
    assert fs.files == old(fs.files)[path := Tokens(StringImage(c, db.items, order))] by {
      assert kept == old(fs.files) || kept == old(fs.files) - {path};
    }
  }

  /** A dictionary saved to a file loads back from it. */
  lemma StringFileRoundTrip<T(!new)>(c: Codec<T>, m: map<string, T>, order: seq<string>, held: map<string, T>)
    requires Sound(c) && Listed(order, m) && forall k :: k in m ==> k in order
    requires SaveEntries(c, m, order).ok && InInt32(|m|)
    ensures StringLoad(c, StringImage(c, m, order), held) == MapLoaded(true, m, |StringImage(c, m, order)|)
  {
    StringRoundTrip(c, m, order, [], []);
    assert [] + [Int32(|m|)] + SaveEntries(c, m, order).tokens + [] == StringImage(c, m, order);
  }
}
