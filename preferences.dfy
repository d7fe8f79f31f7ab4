/**
 * The typed settings kept in the app's preference store. Each setting has a key
 * name, a value type and a default that a read returns while nothing is stored;
 * a setter writes exactly its own key. The site order is stored as one
 * comma-joined string and read back by splitting on commas.
 *
 * The store is a map from key name to value; its asynchronous reads and edits
 * are not modelled. Float settings keep their IEEE-754 bit pattern and are never
 * computed with.
 */
module Preferences {
  import opened Wrappers
  import opened Errors
  import opened Text
  import opened Bytes

  /** The value types of the store's typed keys. */
  datatype Kind = IntKind | BoolKind | FloatKind | StringKind

  datatype PrefValue =
    | IntValue(i: Int32)
    | BoolValue(b: bool)
    | FloatValue(bits: bv32)
    | StringValue(s: string)
  {
    function KindOf(): Kind {
      match this
      case IntValue(_) => IntKind
      case BoolValue(_) => BoolKind
      case FloatValue(_) => FloatKind
      case StringValue(_) => StringKind
    }
  }

  datatype Setting =
    | ThemeMode | DynamicColor | StyleColor
    | EnableDanmaku | DanmakuArea | DanmakuSpeed | DanmakuFontSize | DanmakuFontBorder | DanmakuOpacity
    | PreferResolution | PreferPlatform | AutoFullScreen
    | SiteSort
    | AutoExitEnable | AutoExitDuration
    | FollowRefreshInterval

  /** The setting a key name belongs to, if any. */
  function SettingNamed(name: string): Option<Setting> {
    match name
    case "theme_mode" => Some(ThemeMode)
    case "dynamic_color" => Some(DynamicColor)
    case "style_color" => Some(StyleColor)
    case "enable_danmaku" => Some(EnableDanmaku)
    case "danmaku_area" => Some(DanmakuArea)
    case "danmaku_speed" => Some(DanmakuSpeed)
    case "danmaku_font_size" => Some(DanmakuFontSize)
    case "danmaku_font_border" => Some(DanmakuFontBorder)
    case "danmaku_opacity" => Some(DanmakuOpacity)
    case "prefer_resolution" => Some(PreferResolution)
    case "prefer_platform" => Some(PreferPlatform)
    case "auto_fullscreen" => Some(AutoFullScreen)
    case "site_sort" => Some(SiteSort)
    case "auto_exit_enable" => Some(AutoExitEnable)
    case "auto_exit_duration" => Some(AutoExitDuration)
    case "follow_refresh_interval" => Some(FollowRefreshInterval)
    case _ => None
  }

  /** The key's name in the store; no two settings share one. */
  function KeyName(s: Setting): (name: string)
    ensures SettingNamed(name) == Some(s)
  {
    match s
    case ThemeMode => "theme_mode"
    case DynamicColor => "dynamic_color"
    case StyleColor => "style_color"
    case EnableDanmaku => "enable_danmaku"
    case DanmakuArea => "danmaku_area"
    case DanmakuSpeed => "danmaku_speed"
    case DanmakuFontSize => "danmaku_font_size"
    case DanmakuFontBorder => "danmaku_font_border"
    case DanmakuOpacity => "danmaku_opacity"
    case PreferResolution => "prefer_resolution"
    case PreferPlatform => "prefer_platform"
    case AutoFullScreen => "auto_fullscreen"
    case SiteSort => "site_sort"
    case AutoExitEnable => "auto_exit_enable"
    case AutoExitDuration => "auto_exit_duration"
    case FollowRefreshInterval => "follow_refresh_interval"
  }

  /** The key's value type. */
  function KeyKind(s: Setting): Kind {
    match s
    case ThemeMode | StyleColor | DanmakuSpeed | AutoExitDuration | FollowRefreshInterval => IntKind
    case DynamicColor | EnableDanmaku | AutoFullScreen | AutoExitEnable => BoolKind
    case DanmakuArea | DanmakuFontSize | DanmakuFontBorder | DanmakuOpacity => FloatKind
    case PreferResolution | PreferPlatform | SiteSort => StringKind
  }

  /** The site order a fresh install uses. */
  const DefaultSiteSort := "bilibili,douyu,huya,douyin"

  /** What a read returns while the key is unset; always of the key's type. */
  function Default(s: Setting): (v: PrefValue)
    ensures v.KindOf() == KeyKind(s)
  {
    match s
    case ThemeMode => IntValue(0)
    case DynamicColor => BoolValue(true)
    case StyleColor => IntValue(Wrap32(0xFF6200EE))
    case EnableDanmaku => BoolValue(true)
    case DanmakuArea => FloatValue(0x3F00_0000)
    case DanmakuSpeed => IntValue(8)
    case DanmakuFontSize => FloatValue(0x4180_0000)
    case DanmakuFontBorder => FloatValue(0x3F00_0000)
    case DanmakuOpacity => FloatValue(0x3F80_0000)
    case PreferResolution => StringValue("原画")
    case PreferPlatform => StringValue("web")
    case AutoFullScreen => BoolValue(false)
    case SiteSort => StringValue(DefaultSiteSort)
    case AutoExitEnable => BoolValue(false)
    case AutoExitDuration => IntValue(60)
    case FollowRefreshInterval => IntValue(60)
  }

  /** The store's contents: values by key name. */
  type Store = map<string, PrefValue>

  /**
   * `prefs[KEY] ?: default`: the stored value, or the default when the key is
   * unset. A value of another type under the key's name makes the typed read
   * throw a `ClassCastException`.
   */
  function Read(prefs: Store, s: Setting): (r: Result<PrefValue, Exception>)
    ensures KeyName(s) !in prefs ==> r == Success(Default(s))
    ensures KeyName(s) in prefs && prefs[KeyName(s)].KindOf() == KeyKind(s) ==> r == Success(prefs[KeyName(s)])
    ensures r.Success? ==> r.value.KindOf() == KeyKind(s)
    ensures r.Failure? <==> KeyName(s) in prefs && prefs[KeyName(s)].KindOf() != KeyKind(s)
  {
    if KeyName(s) !in prefs then Success(Default(s))
    else if prefs[KeyName(s)].KindOf() == KeyKind(s) then Success(prefs[KeyName(s)])
    else Failure(ClassCast)
  }

  /** Every stored value has the type of the key its name belongs to. */
  predicate WellTyped(prefs: Store) {
    forall name | name in prefs && SettingNamed(name).Some? :: prefs[name].KindOf() == KeyKind(SettingNamed(name).value)
  }

  /** No two settings share a key name. */
  lemma {:induction false} KeyNamesDistinct(s: Setting, t: Setting)
    requires s != t
    ensures KeyName(s) != KeyName(t)
  {
    var ns, nt := KeyName(s), KeyName(t);
    assert SettingNamed(ns) == Some(s);
    assert SettingNamed(nt) == Some(t);
  }

  /** A read after writing `v` to `s` returns `v`; every other setting reads as before. */
  lemma ReadAfterWrite(prefs: Store, s: Setting, v: PrefValue, t: Setting)
    requires v.KindOf() == KeyKind(s)
    ensures Read(prefs[KeyName(s) := v], t) == if t == s then Success(v) else Read(prefs, t)
  {
    var written := prefs[KeyName(s) := v];
    var name := KeyName(t);
    if t != s {
      KeyNamesDistinct(s, t);
      assert (name in written) == (name in prefs);
      assert name in prefs ==> written[name] == prefs[name];
    } else {
      assert name in written && written[name] == v;
    }
  }

  /** Writes through the setters keep the store well typed. */
  lemma WriteKeepsWellTyped(prefs: Store, s: Setting, v: PrefValue)
    requires v.KindOf() == KeyKind(s) && WellTyped(prefs)
    ensures WellTyped(prefs[KeyName(s) := v])
  {
    var name := KeyName(s);
    assert SettingNamed(name) == Some(s);
  }

  /** A read from a well-typed store never throws. */
  lemma WellTypedReads(prefs: Store, t: Setting)
    requires WellTyped(prefs)
    ensures Read(prefs, t).Success?
  {
    var name := KeyName(t);
    assert SettingNamed(name) == Some(t);
  }

  /** `siteSort`: the stored string, or the default order, split at every comma. */
  function ReadSiteSort(prefs: Store): (r: Result<seq<string>, Exception>)
    ensures r.Success? ==> |r.value| >= 1
    ensures r.Failure? <==> Read(prefs, SiteSort).Failure?
  {
    match Read(prefs, SiteSort)
    case Success(v) => Success(Split(v.s, ','))
    case Failure(e) => Failure(e)
  }

  /** The value `setSiteSort(sites)` stores: the ids joined with commas. */
  function SiteSortValue(sites: seq<string>): PrefValue {
    StringValue(Join(sites, ','))
  }

  /** A site order written and read back is the same order, when it has an id and no id holds a comma. */
  lemma SiteSortRoundTrip(prefs: Store, sites: seq<string>)
    requires |sites| >= 1 && forall i :: 0 <= i < |sites| ==> ',' !in sites[i]
    ensures ReadSiteSort(prefs[KeyName(SiteSort) := SiteSortValue(sites)]) == Success(sites)
  {
    SplitJoin(sites, ',');
  }

  /** An empty order is written as "" and reads back as one empty id, not as no ids. */
  lemma EmptySiteSortReadsOneEmptyId(prefs: Store)
    ensures ReadSiteSort(prefs[KeyName(SiteSort) := SiteSortValue([])]) == Success([""])
  {
    SplitEmpty(',');
  }

  /** Four ids joined with a separator none of them holds split back into those ids. */
  lemma SplitFour(a: string, b: string, c: string, d: string, sep: char)
    requires sep !in a && sep !in b && sep !in c && sep !in d
    ensures Split(a + [sep] + (b + [sep] + (c + [sep] + d)), sep) == [a, b, c, d]
  {
    SplitAtSep(a, sep, b + [sep] + (c + [sep] + d));
    SplitAtSep(b, sep, c + [sep] + d);
    SplitAtSep(c, sep, d);
    SplitNoSep(d, sep);
  }

  /** The default order text splits into the four platform ids. */
  lemma SplitDefaultSiteSort()
    ensures Split(DefaultSiteSort, ',') == ["bilibili", "douyu", "huya", "douyin"]
  {
    assert DefaultSiteSort == "bilibili" + [','] + ("douyu" + [','] + ("huya" + [','] + "douyin"));
    assert ',' !in "bilibili" && ',' !in "douyu" && ',' !in "huya" && ',' !in "douyin";
    SplitFour("bilibili", "douyu", "huya", "douyin", ',');
  }

  /** With nothing stored, the site order is the four platforms in the repository's order. */
  lemma DefaultSiteOrder(prefs: Store)
    requires KeyName(SiteSort) !in prefs
    ensures ReadSiteSort(prefs) == Success(["bilibili", "douyu", "huya", "douyin"])
  {
    assert Read(prefs, SiteSort) == Success(StringValue(DefaultSiteSort));
    SplitDefaultSiteSort();
  }

  class PreferencesManager {
    var prefs: Store

    /** A manager over the store's current contents. */
    constructor (prefs: Store)
      ensures this.prefs == prefs
    {
      this.prefs := prefs;
    }

    /** The flow of `s`'s value, at the store's current contents. */
    function Get(s: Setting): Result<PrefValue, Exception>
      reads this
    {
      Read(prefs, s)
    }

    /** The `siteSort` flow, at the store's current contents. */
    function GetSiteSort(): Result<seq<string>, Exception>
      reads this
    {
      ReadSiteSort(prefs)
    }

    /** Every setter but `setSiteSort`: Kotlin's parameter type makes `v` of the key's type. */
    method Set(s: Setting, v: PrefValue)
      requires v.KindOf() == KeyKind(s)
      modifies this
      ensures prefs == old(prefs)[KeyName(s) := v]
    {
      prefs := prefs[KeyName(s) := v];
    }

    /** `setSiteSort(sites)`. */
    method SetSiteSort(sites: seq<string>)
      modifies this
      ensures prefs == old(prefs)[KeyName(SiteSort) := SiteSortValue(sites)]
    {
      prefs := prefs[KeyName(SiteSort) := SiteSortValue(sites)];
    }
  }
}
