/** The local settings store (PrefKeys, PreferencesRepository). The key-value
    store is a map from key name to stored value; each setting is read with
    its default when unset and written by its own setter. The observed
    streams of values are modelled as reads of the current snapshot. */
module Preferences {

  datatype PrefKey = DarkMode | Language | MapType | Traffic | ImageQuality

  /** The name each key is stored under; the store tells keys apart by name. */
  function KeyName(k: PrefKey): string {
    match k
    case DarkMode => "dark_mode"
    case Language => "language"
    case MapType => "map_type"
    case Traffic => "traffic_enabled"
    case ImageQuality => "image_quality"
  }

  /** The five key names are distinct, so writes to different keys never
      alias. */
  lemma KeyNamesDistinct(a: PrefKey, b: PrefKey)
    ensures KeyName(a) == KeyName(b) <==> a == b
  {
  }

  datatype PrefValue = BoolPref(b: bool) | StringPref(s: string)

  /** Dark mode and traffic are boolean keys; the other three hold strings. */
  predicate IsBoolKey(k: PrefKey) {
    k == DarkMode || k == Traffic
  }

  predicate HasKeyType(k: PrefKey, v: PrefValue) {
    if IsBoolKey(k) then v.BoolPref? else v.StringPref?
  }

  type Store = map<string, PrefValue>

  /** Every stored key holds a value of its declared type. */
  predicate WellTyped(prefs: Store) {
    forall k: PrefKey :: KeyName(k) in prefs ==> HasKeyType(k, prefs[KeyName(k)])
  }

  /** The value a key reads as when nothing is stored under it. */
  function Default(k: PrefKey): (v: PrefValue)
    ensures HasKeyType(k, v)
  {
    match k
    case DarkMode => BoolPref(true)
    case Language => StringPref("English")
    case MapType => StringPref("Normal")
    case Traffic => BoolPref(true)
    case ImageQuality => StringPref("High")
  }

  /** `prefs[key] ?: default`. */
  function Read(prefs: Store, k: PrefKey): (v: PrefValue)
    requires WellTyped(prefs)
    ensures HasKeyType(k, v)
    ensures KeyName(k) !in prefs ==> v == Default(k)
  {
    if KeyName(k) in prefs then prefs[KeyName(k)] else Default(k)
  }

  /** `edit { prefs[key] = value }`. */
  function Write(prefs: Store, k: PrefKey, v: PrefValue): Store {
    prefs[KeyName(k) := v]
  }

  /** Unset keys read as their defaults: dark mode on, "English", "Normal",
      traffic on, "High". */
  lemma UnsetReadsDefault()
    ensures Read(map[], DarkMode) == BoolPref(true)
    ensures Read(map[], Language) == StringPref("English")
    ensures Read(map[], MapType) == StringPref("Normal")
    ensures Read(map[], Traffic) == BoolPref(true)
    ensures Read(map[], ImageQuality) == StringPref("High")
  {
  }

  /** A write of the right type keeps the store well typed; reading the key
      back yields the value written, and every other key reads as before. */
  lemma ReadAfterWrite(prefs: Store, k: PrefKey, v: PrefValue, other: PrefKey)
    requires WellTyped(prefs) && HasKeyType(k, v)
    ensures WellTyped(Write(prefs, k, v))
    ensures Read(Write(prefs, k, v), k) == v
    ensures other != k ==> Read(Write(prefs, k, v), other) == Read(prefs, other)
  {
    KeyNamesDistinct(k, other);
  }

  /** Writing the same value twice has the effect of writing it once. */
  lemma WriteIdempotent(prefs: Store, k: PrefKey, v: PrefValue)
    ensures Write(Write(prefs, k, v), k, v) == Write(prefs, k, v)
  {
  }

  class PreferencesRepository {
    var prefs: Store

    ghost predicate Valid()
      reads this
    {
      WellTyped(prefs)
    }

    /** A store with nothing written yet. */
    constructor ()
      ensures Valid() && prefs == map[]
    {
      prefs := map[];
    }

    /** The current value of dark mode: the stored flag, on when unset. */
    function DarkModeValue(): (v: bool)
      reads this
      requires Valid()
      ensures KeyName(DarkMode) in prefs ==> prefs[KeyName(DarkMode)] == BoolPref(v)
      ensures KeyName(DarkMode) !in prefs ==> v == true
    {
      Read(prefs, DarkMode).b
    }

    /** The current value of the language: the stored name, "English" when unset. */
    function LanguageValue(): (v: string)
      reads this
      requires Valid()
      ensures KeyName(Language) in prefs ==> prefs[KeyName(Language)] == StringPref(v)
      ensures KeyName(Language) !in prefs ==> v == "English"
    {
      Read(prefs, Language).s
    }

    /** The current value of the map type: the stored label, "Normal" when unset. */
    function MapTypeValue(): (v: string)
      reads this
      requires Valid()
      ensures KeyName(MapType) in prefs ==> prefs[KeyName(MapType)] == StringPref(v)
      ensures KeyName(MapType) !in prefs ==> v == "Normal"
    {
      Read(prefs, MapType).s
    }

    /** The current value of traffic: the stored flag, on when unset. */
    function TrafficEnabledValue(): (v: bool)
      reads this
      requires Valid()
      ensures KeyName(Traffic) in prefs ==> prefs[KeyName(Traffic)] == BoolPref(v)
      ensures KeyName(Traffic) !in prefs ==> v == true
    {
      Read(prefs, Traffic).b
    }

    /** The current value of the image quality: the stored label, "High" when unset. */
    function ImageQualityValue(): (v: string)
      reads this
      requires Valid()
      ensures KeyName(ImageQuality) in prefs ==> prefs[KeyName(ImageQuality)] == StringPref(v)
      ensures KeyName(ImageQuality) !in prefs ==> v == "High"
    {
      Read(prefs, ImageQuality).s
    }

    method SetDarkMode(enabled: bool)
      requires Valid()
      modifies this
      ensures Valid() && prefs == Write(old(prefs), DarkMode, BoolPref(enabled))
      ensures DarkModeValue() == enabled
      ensures LanguageValue() == old(LanguageValue()) && MapTypeValue() == old(MapTypeValue())
      ensures TrafficEnabledValue() == old(TrafficEnabledValue()) && ImageQualityValue() == old(ImageQualityValue())
    {
      ReadAfterWrite(prefs, DarkMode, BoolPref(enabled), Language);
      ReadAfterWrite(prefs, DarkMode, BoolPref(enabled), MapType);
      ReadAfterWrite(prefs, DarkMode, BoolPref(enabled), Traffic);
      ReadAfterWrite(prefs, DarkMode, BoolPref(enabled), ImageQuality);
      prefs := Write(prefs, DarkMode, BoolPref(enabled));
    }

    method SetLanguage(value: string)
      requires Valid()
      modifies this
      ensures Valid() && prefs == Write(old(prefs), Language, StringPref(value))
      ensures LanguageValue() == value
      ensures DarkModeValue() == old(DarkModeValue()) && MapTypeValue() == old(MapTypeValue())
      ensures TrafficEnabledValue() == old(TrafficEnabledValue()) && ImageQualityValue() == old(ImageQualityValue())
    {
      ReadAfterWrite(prefs, Language, StringPref(value), DarkMode);
      ReadAfterWrite(prefs, Language, StringPref(value), MapType);
      ReadAfterWrite(prefs, Language, StringPref(value), Traffic);
      ReadAfterWrite(prefs, Language, StringPref(value), ImageQuality);
      prefs := Write(prefs, Language, StringPref(value));
    }

    method SetMapType(value: string)
      requires Valid()
      modifies this
      ensures Valid() && prefs == Write(old(prefs), MapType, StringPref(value))
      ensures MapTypeValue() == value
      ensures DarkModeValue() == old(DarkModeValue()) && LanguageValue() == old(LanguageValue())
      ensures TrafficEnabledValue() == old(TrafficEnabledValue()) && ImageQualityValue() == old(ImageQualityValue())
    {
      ReadAfterWrite(prefs, MapType, StringPref(value), DarkMode);
      ReadAfterWrite(prefs, MapType, StringPref(value), Language);
      ReadAfterWrite(prefs, MapType, StringPref(value), Traffic);
      ReadAfterWrite(prefs, MapType, StringPref(value), ImageQuality);
      prefs := Write(prefs, MapType, StringPref(value));
    }

    method SetTrafficEnabled(enabled: bool)
      requires Valid()
      modifies this
      ensures Valid() && prefs == Write(old(prefs), Traffic, BoolPref(enabled))
      ensures TrafficEnabledValue() == enabled
      ensures DarkModeValue() == old(DarkModeValue()) && LanguageValue() == old(LanguageValue())
      ensures MapTypeValue() == old(MapTypeValue()) && ImageQualityValue() == old(ImageQualityValue())
    {
      ReadAfterWrite(prefs, Traffic, BoolPref(enabled), DarkMode);
      ReadAfterWrite(prefs, Traffic, BoolPref(enabled), Language);
      ReadAfterWrite(prefs, Traffic, BoolPref(enabled), MapType);
      ReadAfterWrite(prefs, Traffic, BoolPref(enabled), ImageQuality);
      prefs := Write(prefs, Traffic, BoolPref(enabled));
    }

    method SetImageQuality(value: string)
      requires Valid()
      modifies this
      ensures Valid() && prefs == Write(old(prefs), ImageQuality, StringPref(value))
      ensures ImageQualityValue() == value
      ensures DarkModeValue() == old(DarkModeValue()) && LanguageValue() == old(LanguageValue())
      ensures MapTypeValue() == old(MapTypeValue()) && TrafficEnabledValue() == old(TrafficEnabledValue())
    {
      ReadAfterWrite(prefs, ImageQuality, StringPref(value), DarkMode);
      ReadAfterWrite(prefs, ImageQuality, StringPref(value), Language);
      ReadAfterWrite(prefs, ImageQuality, StringPref(value), MapType);
      ReadAfterWrite(prefs, ImageQuality, StringPref(value), Traffic);
      prefs := Write(prefs, ImageQuality, StringPref(value));
    }
  }

  /** Two calls of a setter with the same value leave the store as one call
      does. */
  method SetMapTypeTwice(repo: PreferencesRepository, v: string)
    requires repo.Valid()
    modifies repo
    ensures repo.Valid() && repo.prefs == Write(old(repo.prefs), MapType, StringPref(v))
  {
    repo.SetMapType(v);
    repo.SetMapType(v);
    WriteIdempotent(old(repo.prefs), MapType, StringPref(v));
  }
}
