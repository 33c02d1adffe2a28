/** Paths: the user data folder and the executable's path, with both kinds
    of directory separator rewritten to the platform's one; the data files
    kept in the user data folder; and the texture of each weekday's dot. */
module Paths {
  import opened Wrappers
  import opened Text
  import Schedule

  /** Either directory separator a path may carry. */
  predicate IsSeparator(c: char) {
    c == '\\' || c == '/'
  }

  /** string.StartsWith: s begins with t. */
  predicate StartsWith(s: string, t: string) {
    |t| <= |s| && s[..|t|] == t
  }

  /** Replace('\\', sep).Replace('/', sep): every separator, of either
      kind, becomes sep; every other character is kept. */
  function Normalize(path: string, sep: char): (r: string)
    ensures |r| == |path|
    ensures forall i :: 0 <= i < |path| && IsSeparator(path[i]) ==> r[i] == sep
    ensures forall i :: 0 <= i < |path| && !IsSeparator(path[i]) ==> r[i] == path[i]
    ensures forall i :: 0 <= i < |r| && IsSeparator(r[i]) ==> r[i] == sep
  {
    seq(|path|, i requires 0 <= i < |path| => if IsSeparator(path[i]) then sep else path[i])
  }

  /** Normalising a normalised path changes nothing, for either platform
      separator. */
  lemma NormalizeIdempotent(path: string, sep: char)
    requires IsSeparator(sep)
    ensures Normalize(Normalize(path, sep), sep) == Normalize(path, sep)
  {
  }

  /** `path.EndsWith(sep) ? path : path + sep`. */
  function WithTrailing(path: string, sep: char): (r: string)
    ensures r != [] && r[|r| - 1] == sep
    ensures r == path || r == path + [sep]
    ensures path != [] && path[|path| - 1] == sep ==> r == path
  {
    if path != [] && path[|path| - 1] == sep then path else path + [sep]
  }

  /** Adding the trailing separator twice adds it once. */
  lemma WithTrailingIdempotent(path: string, sep: char)
    ensures WithTrailing(WithTrailing(path, sep), sep) == WithTrailing(path, sep)
  {
  }

  // ---------------------------------------------------------------------
  // FolderPaths.GetUserData and FilePaths.GetExecutable
  // ---------------------------------------------------------------------

  /** GetUserData on the folder OS.GetUserDataDir reports: the normalised
      folder with exactly one separator at the end; an empty folder stays
      empty. */
  function GetUserData(dir: string, sep: char): (r: string)
    ensures |r| == |dir| || |r| == |dir| + 1
    ensures r == [] <==> dir == []
    ensures r != [] ==> r[|r| - 1] == sep
    ensures r[..|dir|] == Normalize(dir, sep)
    ensures |r| == |dir| + 1 <==> dir != [] && Normalize(dir, sep)[|dir| - 1] != sep
  {
    var path := Normalize(dir, sep);
    if |path| == 0 then [] else WithTrailing(path, sep)
  }

  /** The user data folder is a fixed point of GetUserData: no separator
      is rewritten and none is added. */
  lemma GetUserDataIdempotent(dir: string, sep: char)
    requires IsSeparator(sep)
    ensures GetUserData(GetUserData(dir, sep), sep) == GetUserData(dir, sep)
  {
    var r := GetUserData(dir, sep);
    if r != [] {
      NormalizeIdempotent(dir, sep);
      assert Normalize(r, sep) == r;
    }
  }

  /** The "file:" scheme GetExecutable strips from the front. */
  const FileScheme: string := "file:"

  /** GetExecutable on the location Assembly.Location reports (None when
      reading it throws): empty when that fails, when the normalised path is
      empty or is a lone separator; otherwise the path without a "file:"
      scheme followed by three separators (8 characters) or else two (7),
      given exactly one trailing separator. */
  function GetExecutable(location: Option<string>, sep: char): (r: string)
    ensures r == [] <==>
      location.None? || Normalize(location.value, sep) == [] || Normalize(location.value, sep) == [sep]
    ensures r != [] ==> r[|r| - 1] == sep
  {
    if location.None? then []
    else
      var path := Normalize(location.value, sep);
      if |path| == 0 || path == [sep] then []
      else
        var rest :=
          if StartsWith(path, FileScheme + Repeat(sep, 3)) then path[8..]
          else if StartsWith(path, FileScheme + Repeat(sep, 2)) then path[7..]
          else path;
        WithTrailing(rest, sep)
  }

  /** A "file:" URL with three separators loses its scheme and all three
      separators. */
  lemma ExecutableFromFileUrl(location: string, sep: char, rest: string)
    requires Normalize(location, sep) == FileScheme + Repeat(sep, 3) + rest
    ensures GetExecutable(Some(location), sep) == WithTrailing(rest, sep)
  {
    var path := Normalize(location, sep);
    assert path[..8] == FileScheme + Repeat(sep, 3);
    assert path[8..] == rest;
    assert path != [sep] by { assert |path| >= 8; }
  }

  /** A "file:" URL with two separators, not followed by a third, loses its
      scheme and both separators. */
  lemma ExecutableFromHostUrl(location: string, sep: char, rest: string)
    requires Normalize(location, sep) == FileScheme + Repeat(sep, 2) + rest
    requires rest == [] || rest[0] != sep
    ensures GetExecutable(Some(location), sep) == WithTrailing(rest, sep)
  {
    var path := Normalize(location, sep);
    assert path[..7] == FileScheme + Repeat(sep, 2);
    assert path[7..] == rest;
    assert !StartsWith(path, FileScheme + Repeat(sep, 3)) by {
      if |path| >= 8 {
        assert path[7] == rest[0];
        assert (FileScheme + Repeat(sep, 3))[7] == sep;
      }
    }
    assert path != [sep] by { assert |path| >= 7; }
  }

  /** A location that is not a "file:" URL is only normalised and given
      its trailing separator. */
  lemma ExecutableFromPlainPath(location: string, sep: char)
    requires !StartsWith(Normalize(location, sep), FileScheme)
    requires Normalize(location, sep) != [] && Normalize(location, sep) != [sep]
    ensures GetExecutable(Some(location), sep) == WithTrailing(Normalize(location, sep), sep)
  {
    var path := Normalize(location, sep);
    NotStartsWithLonger(path, FileScheme, Repeat(sep, 3));
    NotStartsWithLonger(path, FileScheme, Repeat(sep, 2));
  }

  /** What does not start with t does not start with anything t begins. */
  lemma NotStartsWithLonger(s: string, t: string, u: string)
    requires !StartsWith(s, t)
    ensures !StartsWith(s, t + u)
  {
    if |t + u| <= |s| {
      assert s[..|t|] == s[..|t + u|][..|t|];
      assert (t + u)[..|t|] == t;
    }
  }

  // ---------------------------------------------------------------------
  // The cached folder and file paths
  // ---------------------------------------------------------------------

  /** The file names kept in the user data folder. */
  const SettingsName: string := "settings.xml"
  const OpenTimesName: string := "times.xml"
  const ProductsName: string := "products.xml"
  const LogName: string := "log.txt"

  /** The static `_data` and `_exec` fields of FolderPaths and FilePaths,
      computed on first use and kept.  The separator, the folder the
      operating system reports and the assembly's location are fixed for
      the life of the process. */
  class PathCache {
    const sep: char
    const userDataDir: string
    const location: Option<string>
    var data: Option<string>
    var exec: Option<string>

    /** A cached value is the one its Get method computes. */
    predicate Valid()
      reads this
    {
      (data.Some? ==> data.value == GetUserData(userDataDir, sep))
      && (exec.Some? ==> exec.value == GetExecutable(location, sep))
    }

    /** Nothing is cached at start-up. */
    constructor (sep: char, userDataDir: string, location: Option<string>)
      ensures this.sep == sep && this.userDataDir == userDataDir && this.location == location
      ensures data == None && exec == None
      ensures Valid()
    {
      this.sep := sep;
      this.userDataDir := userDataDir;
      this.location := location;
      data := None;
      exec := None;
    }

    /** FolderPaths.UserData: GetUserData on first access, the cached value
        after; the executable's cache is untouched. */
    method UserData() returns (r: string)
      requires Valid()
      modifies this
      ensures Valid()
      ensures r == GetUserData(userDataDir, sep)
      ensures data == Some(r) && exec == old(exec)
      ensures old(data).Some? ==> data == old(data)
    {
      if data.None? {
        data := Some(GetUserData(userDataDir, sep));
      }
      r := data.value;
    }

    /** FilePaths.Executable: GetExecutable on first access, the cached
        value after; the user data cache is untouched. */
    method Executable() returns (r: string)
      requires Valid()
      modifies this
      ensures Valid()
      ensures r == GetExecutable(location, sep)
      ensures exec == Some(r) && data == old(data)
      ensures old(exec).Some? ==> exec == old(exec)
    {
      if exec.None? {
        exec := Some(GetExecutable(location, sep));
      }
      r := exec.value;
    }

    /** FilePaths.Settings. */
    method SettingsPath() returns (r: string)
      requires Valid()
      modifies this
      ensures Valid() && exec == old(exec) && data.Some?
      ensures r == GetUserData(userDataDir, sep) + SettingsName
    {
      var folder := UserData();
      r := folder + SettingsName;
    }

    /** FilePaths.OpenTimes. */
    method OpenTimesPath() returns (r: string)
      requires Valid()
      modifies this
      ensures Valid() && exec == old(exec) && data.Some?
      ensures r == GetUserData(userDataDir, sep) + OpenTimesName
    {
      var folder := UserData();
      r := folder + OpenTimesName;
    }

    /** FilePaths.Products. */
    method ProductsPath() returns (r: string)
      requires Valid()
      modifies this
      ensures Valid() && exec == old(exec) && data.Some?
      ensures r == GetUserData(userDataDir, sep) + ProductsName
    {
      var folder := UserData();
      r := folder + ProductsName;
    }

    /** FilePaths.Log. */
    method LogPath() returns (r: string)
      requires Valid()
      modifies this
      ensures Valid() && exec == old(exec) && data.Some?
      ensures r == GetUserData(userDataDir, sep) + LogName
    {
      var folder := UserData();
      r := folder + LogName;
    }
  }

  /** Two names appended to one folder give one path only when the names
      are the same. */
  lemma AppendCancel(folder: string, a: string, b: string)
    requires folder + a == folder + b
    ensures a == b
  {
    assert a == (folder + a)[|folder|..];
    assert b == (folder + b)[|folder|..];
  }

  /** The four data files lie in the user data folder and are four
      different files, whatever the folder. */
  lemma FilePathsDistinct(folder: string)
    ensures forall name :: name in [SettingsName, OpenTimesName, ProductsName, LogName] ==>
      StartsWith(folder + name, folder)
    ensures folder + SettingsName != folder + OpenTimesName
    ensures folder + SettingsName != folder + ProductsName
    ensures folder + SettingsName != folder + LogName
    ensures folder + OpenTimesName != folder + ProductsName
    ensures folder + OpenTimesName != folder + LogName
    ensures folder + ProductsName != folder + LogName
  {
    forall name | name in [SettingsName, OpenTimesName, ProductsName, LogName]
      ensures StartsWith(folder + name, folder)
    {
      assert (folder + name)[..|folder|] == folder;
    }
  }

  // ---------------------------------------------------------------------
  // ResourcePaths.DayDotTexture
  // ---------------------------------------------------------------------

  /** FolderPaths.DayDots. */
  const DayDots: string := "res://images/dots/"

  /** The texture file of weekday `index` (0 is Sunday). */
  function TextureOf(index: int): string
    requires 0 <= index < |Schedule.DayNames|
  {
    DayDots + ToLower(Schedule.DayNames[index]) + ".png"
  }

  /** What DayDotTexture as written does: null, a texture path, or an
      IndexOutOfRangeException from reading past the seven day names. */
  datatype Texture = NoTexture | TexturePath(path: string) | IndexFault

  /** DayDotTexture as written: the guard rejects index > 7 only, so index
      7, one past the last day name, reaches the array read and faults. */
  function DayDotTextureAsWritten(index: int): (r: Texture)
    ensures r.IndexFault? <==> index == |Schedule.DayNames|
    ensures r.NoTexture? <==> index < 0 || index > |Schedule.DayNames|
    ensures r.TexturePath? ==> 0 <= index < |Schedule.DayNames| && r.path == TextureOf(index)
  {
    if index < 0 || index > |Schedule.DayNames| then NoTexture
    else if index >= |Schedule.DayNames| then IndexFault
    else TexturePath(TextureOf(index))
  }

  /** DayDotTexture with the guard the array read needs: null for any
      index that is not a weekday, otherwise the day's texture in the dots
      folder. */
  function DayDotTexture(index: int): (r: Option<string>)
    ensures r.Some? <==> 0 <= index < 7
    ensures r.Some? ==> StartsWith(r.value, DayDots) && EndsWith(r.value, ".png")
  {
    if index < 0 || index >= |Schedule.DayNames| then None
    else Some(TextureOf(index))
  }

  /** Saturday plus one passes the written guard and faults, where the
      corrected guard answers null. */
  lemma DayDotTextureFault()
    ensures DayDotTextureAsWritten(7) == IndexFault
    ensures DayDotTexture(7) == None
  {
  }

  /** Apart from index 7 the written and the corrected guard agree. */
  lemma DayDotTextureAgrees(index: int)
    requires index != 7
    ensures DayDotTexture(index).None? <==> DayDotTextureAsWritten(index).NoTexture?
    ensures DayDotTexture(index).Some? ==> DayDotTextureAsWritten(index) == TexturePath(DayDotTexture(index).value)
  {
  }

  /** Each weekday has its own texture. */
  lemma DayDotTextureInjective(i: int, j: int)
    requires DayDotTexture(i).Some? && DayDotTexture(i) == DayDotTexture(j)
    ensures i == j
  {
    var a := ToLower(Schedule.DayNames[i]);
    var b := ToLower(Schedule.DayNames[j]);
    assert DayDots + a + ".png" == DayDots + b + ".png";
    assert a == (DayDots + a + ".png")[|DayDots|..|DayDots| + |a|];
    assert b == (DayDots + b + ".png")[|DayDots|..|DayDots| + |b|];
    assert |a| == |b| && a[0] == b[0];
    assert |Schedule.DayNames[i]| == |Schedule.DayNames[j]|;
    assert ToLowerChar(Schedule.DayNames[i][0]) == ToLowerChar(Schedule.DayNames[j][0]);
  }
}
