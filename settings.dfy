/** Settings: the application's one option, whether times are shown on a
    24-hour clock, kept as a Settings element with a Use24HourClock
    attribute in the settings file. */
module AppSettings {
  import opened Wrappers
  import opened Text
  import opened Xml
  import opened Files
  import XmlLoadable

  /** nameof(Use24HourClock), the attribute's name. */
  const Attribute: string := "Use24HourClock"

  /** bool.ToString. */
  function BoolText(b: bool): string {
    if b then "True" else "False"
  }

  /** bool.Parse: "True" or "False" in any letter case, with white space
      around it allowed; anything else does not parse (it throws). */
  function ParseBool(s: string): (r: Option<bool>)
    ensures r.Some? ==> ToLower(Trim(s)) == ToLower(BoolText(r.value))
    ensures r.None? ==> ToLower(Trim(s)) != ToLower(BoolText(true)) && ToLower(Trim(s)) != ToLower(BoolText(false))
  {
    var t := ToLower(Trim(s));
    LowerBoolText();
    if t == "true" then Some(true)
    else if t == "false" then Some(false)
    else None
  }

  /** The lower-case forms of the two texts. */
  lemma LowerBoolText()
    ensures ToLower(BoolText(true)) == "true" && ToLower(BoolText(false)) == "false"
  {
    assert ToLower("True") == "true" by {
      assert ToLowerChar('T') == 't';
    }
    assert ToLower("False") == "false" by {
      assert ToLowerChar('F') == 'f';
    }
  }

  /** The two texts need no trimming. */
  lemma TrimBoolText(b: bool)
    ensures Trim(BoolText(b)) == BoolText(b)
  {
    var s := BoolText(b);
    assert !IsWhiteSpace(s[0]) && !IsWhiteSpace(s[|s| - 1]);
    TrimNoOp(s);
  }

  /** Every boolean's text parses back to it. */
  lemma BoolRoundTrip(b: bool)
    ensures ParseBool(BoolText(b)) == Some(b)
  {
    TrimBoolText(b);
    LowerBoolText();
  }

  datatype SettingsLoad = SettingsLoad(ok: bool, use24: bool)

  /** LoadFromXml on settings holding `before`: the attribute is required,
      and a value that is not a boolean fails and changes nothing. */
  function LoadSettings(e: Element, before: bool): (res: SettingsLoad)
    ensures res.ok <==> HasAttribute(e, Attribute) && ParseBool(e.attrs[Attribute]).Some?
    ensures !res.ok ==> res.use24 == before
    ensures res.ok ==> res.use24 == ParseBool(e.attrs[Attribute]).value
  {
    if !HasAttribute(e, Attribute) then SettingsLoad(false, before)
    else
      match ParseBool(GetAttribute(e, Attribute))
      case None => SettingsLoad(false, before)
      case Some(b) => SettingsLoad(true, b)
  }

  /** The element ToString describes. */
  function SettingsElement(use24: bool): Element {
    Element("Settings", map[Attribute := BoolText(use24)], [])
  }

  /** ToString: `<Settings Use24HourClock="True"/>` or the same with
      "False". */
  function SettingsText(use24: bool): string {
    "<Settings " + Attribute + "=\"" + BoolText(use24) + "\"/>"
  }

  /** Loading the element ToString describes restores the option, whatever
      the settings held before. */
  lemma SettingsRoundTrip(use24: bool, before: bool)
    ensures LoadSettings(SettingsElement(use24), before) == SettingsLoad(true, use24)
  {
    BoolRoundTrip(use24);
  }

  /** LoadFromXml as the static loaders of XmlLoadable call it: the
      option read from the element, or nothing when the load fails. */
  function LoadedOption(before: bool, e: Element): (r: Option<bool>)
    ensures r.Some? <==> LoadSettings(e, before).ok
    ensures r.Some? ==> r.value == ParseBool(e.attrs[Attribute]).value
  {
    var l := LoadSettings(e, before);
    if l.ok then Some(l.use24) else None
  }

  /** Settings as a type FromFile<Settings> and FromXml<Settings> create:
      a new object on the 12-hour clock, which a successful LoadFromXml
      overwrites whatever it held. */
  function SettingsLoader(): XmlLoadable.Loader<bool> {
    XmlLoadable.Loader(false, LoadedOption)
  }

  /** FromFile<Settings> on the file Save writes gives the saved option
      back, with no XPath or a blank one, given a parser that reads the
      written text as the element ToString describes. */
  lemma SettingsFileRoundTrip(fs: FileStore, path: string, parse: string -> Option<XmlLoadable.Document>,
                              use24: bool, xpath: Option<string>)
    requires path in fs.files && fs.files[path] == Text(Header + "\r\n" + SettingsText(use24))
    requires XmlLoadable.ParsesTo(parse, Header + "\r\n" + SettingsText(use24), SettingsElement(use24))
    requires xpath.None? || IsBlank(xpath.value)
    ensures XmlLoadable.FromFile(SettingsLoader(), fs, path, parse, xpath) == Some(use24)
  {
    XmlLoadable.ToFileReadsBack(fs, SettingsText(use24), path);
    SettingsRoundTrip(use24, false);
    assert XmlLoadable.Target(parse(Header + "\r\n" + SettingsText(use24)).value, xpath) == Some(SettingsElement(use24));
  }

  /** FromXml<Settings> gives null for a document element whose option is
      missing or is not a boolean. */
  lemma SettingsFromXmlRefuses(parse: string -> Option<XmlLoadable.Document>, xml: string, e: Element)
    requires XmlLoadable.ParsesTo(parse, xml, e)
    requires !HasAttribute(e, Attribute) || ParseBool(e.attrs[Attribute]).None?
    ensures XmlLoadable.FromXml(SettingsLoader(), parse, xml, None).None?
  {
    assert XmlLoadable.Target(parse(xml).value, None) == Some(e);
    assert !LoadSettings(e, false).ok;
  }

  /** The option after construction, from what the settings file holds:
      the loaded value when there is a target element that loads, false
      otherwise. */
  function Constructed(target: Option<Element>): bool {
    if target.None? then false
    else
      var l := LoadSettings(target.value, false);
      l.ok && l.use24
  }

  /** Settings whose file does not load start on the 12-hour clock; a
      file that loads decides the option. */
  lemma ConstructedDefaults(target: Option<Element>)
    ensures target.None? ==> !Constructed(target)
    ensures target.Some? && !LoadSettings(target.value, false).ok ==> !Constructed(target)
    ensures target.Some? && LoadSettings(target.value, false).ok ==>
      Constructed(target) == ParseBool(target.value.attrs[Attribute]).value
  {
  }

  class Settings {
    var use24HourClock: bool

    /** new Settings(): with no settings file, the defaults are set and
        saved; otherwise the file is loaded, and the defaults are set when
        that fails.  `parse` reads a file's text as a document. */
    constructor (fs: FileStore, path: string, parse: string -> Option<XmlLoadable.Document>)
      modifies fs
      ensures path !in old(fs.files) ==>
        !use24HourClock && fs.files == old(fs.files)[path := Text(Header + "\r\n" + SettingsText(false))]
      ensures path in old(fs.files) ==>
        fs.files == old(fs.files) && use24HourClock == Constructed(XmlLoadable.FileTarget(fs, path, parse, None))
    {
      use24HourClock := false;
      new;
      if !fs.Exists(path) {
        SetDefaults();
        var _ := Save(fs, path);
      } else {
        var loaded := Load(fs, path, parse);
        if !loaded {
          SetDefaults();
        }
      }
    }

    /** SetDefaults(). */
    method SetDefaults()
      modifies this
      ensures !use24HourClock
    {
      use24HourClock := false;
    }

    /** LoadFromXml(element). */
    method LoadFromXml(e: Element) returns (ok: bool)
      modifies this
      ensures SettingsLoad(ok, use24HourClock) == LoadSettings(e, old(use24HourClock))
    {
      if !HasAttribute(e, Attribute) {
        return false;
      }
      var b := ParseBool(GetAttribute(e, Attribute));
      if b.None? {
        return false;
      }
      use24HourClock := b.value;
      return true;
    }

    /** ToString(). */
    function ToString(): string
      reads this
    {
      SettingsText(use24HourClock)
    }

    /** Load(): false without a settings file; otherwise LoadFromFile,
        which fails when the file does not parse. */
    method Load(fs: FileStore, path: string, parse: string -> Option<XmlLoadable.Document>) returns (ok: bool)
      modifies this
      ensures XmlLoadable.FileTarget(fs, path, parse, None).None? ==> !ok && use24HourClock == old(use24HourClock)
      ensures XmlLoadable.FileTarget(fs, path, parse, None).Some? ==>
        SettingsLoad(ok, use24HourClock) == LoadSettings(XmlLoadable.FileTarget(fs, path, parse, None).value, old(use24HourClock))
    {
      if !fs.Exists(path) {
        return false;
      }
      var target := XmlLoadable.FileTarget(fs, path, parse, None);
      if target.None? {
        return false;
      }
      ok := LoadFromXml(target.value);
    }

    /** Save(): ToFile(this, path, true), which always writes. */
    method Save(fs: FileStore, path: string) returns (ok: bool)
      modifies fs
      ensures ok && fs.files == old(fs.files)[path := Text(Header + "\r\n" + SettingsText(use24HourClock))]
    {
      ok := XmlLoadable.ToFile(fs, ToString(), path, true);
    }
  }
}
