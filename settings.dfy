/** The settings store: a record of named JSON values that starts from a fixed set of
    defaults, is merged with what was saved, updated one key or several at a time, reset,
    and merged with an imported JSON text. Parsing and storage are parameters: `parse`
    stands for `JSON.parse` and the saved text for what local storage held. */
module Settings {
  import opened Options
  import opened JsString

  /** A JSON value. Numbers are exact decimals. */
  datatype Json = JNull | JBool(b: bool) | JNum(n: real) | JStr(s: string)
                | JArr(items: seq<Json>) | JObj(fields: map<string, Json>)

  /** The outcome of `JSON.parse`: a value, or the exception it throws. */
  datatype Parsed = ParseError | Value(v: Json)

  type SettingsMap = map<string, Json>

  datatype SettingsState = SettingsState(settings: SettingsMap, loaded: bool)

  /** The record the store starts from, and that a reset restores. */
  const DEFAULTS: SettingsMap := map[
    "backgroundType" := JStr("video"),
    "backgroundVideo" := JStr("/videos/5562986-uhd_3840_2160_24fps (1).mp4"),
    "backgroundImage" := JStr("/backgrounds/default.jpg"),
    "backgroundColor" := JStr("#1a1a1a"),
    "gradientType" := JStr("radial"),
    "gradientColors" := JArr([JStr("#667eea"), JStr("#764ba2")]),
    "glassOpacity" := JNum(0.1),
    "glassBlur" := JNum(8.0),
    "glassSaturation" := JNum(180.0),
    "glassBorderOpacity" := JNum(0.3),
    "tabShape" := JStr("rounded"),
    "tabHeight" := JNum(36.0),
    "tabSpacing" := JNum(8.0),
    "tabOverlayOpacity" := JNum(0.15),
    "showTabCloseButtons" := JBool(true),
    "showTabIcons" := JBool(true),
    "enableAnimations" := JBool(true),
    "enableHoverEffects" := JBool(true),
    "enableTrackingProtection" := JBool(true),
    "blockThirdPartyCookies" := JBool(true),
    "enableDoNotTrack" := JBool(true),
    "enableHardwareAcceleration" := JBool(true),
    "enableWebGL" := JBool(true),
    "maxTabCount" := JNum(50.0),
    "homepage" := JStr("https://www.google.com"),
    "searchEngine" := JStr("google"),
    "newTabPage" := JStr("https://www.google.com"),
    "customCSS" := JStr(""),
    "customFont" := JStr("Inter"),
    "fontSize" := JNum(14.0)
  ]

  /** The state before loading: the defaults, not yet loaded. */
  function Initial(): (r: SettingsState)
    ensures r.settings == DEFAULTS && !r.loaded
  {
    SettingsState(DEFAULTS, false)
  }

  /** The keys of an array spread into an object: its indices in decimal. */
  function Indexed(items: seq<Json>): (r: map<string, Json>)
    ensures forall i :: 0 <= i < |items| ==> NatToString(i) in r
  {
    if items == [] then map[]
    else Indexed(items[..|items| - 1])[NatToString(|items| - 1) := items[|items| - 1]]
  }

  /** The properties `{ ...v }` contributes: an object its fields, an array or a string one
      property per index, anything else none. */
  function Spread(v: Json): (r: map<string, Json>)
    ensures v.JObj? ==> r == v.fields
    ensures v.JNull? || v.JBool? || v.JNum? ==> r == map[]
  {
    match v
    case JObj(fields) => fields
    case JArr(items) => Indexed(items)
    case JStr(s) => Indexed(seq(|s|, i requires 0 <= i < |s| => JStr([s[i]])))
    case _ => map[]
  }

  /** `{ ...prev, ...updates }`: the updates win on shared keys, every other key of `prev` is
      kept, and nothing else is added. */
  function Merge(prev: SettingsMap, updates: map<string, Json>): (r: SettingsMap)
    ensures r.Keys == prev.Keys + updates.Keys
    ensures forall k :: k in updates ==> r[k] == updates[k]
    ensures forall k :: k in prev && k !in updates ==> r[k] == prev[k]
  {
    prev + updates
  }

  /** Merging the same updates twice is merging them once. */
  lemma MergeIdempotent(prev: SettingsMap, updates: map<string, Json>)
    ensures Merge(Merge(prev, updates), updates) == Merge(prev, updates)
  {
  }

  /** `updateSetting(key, value)`: that key holds the value, every other key is unchanged. */
  function UpdateSetting(s: SettingsState, key: string, value: Json): (r: SettingsState)
    ensures key in r.settings && r.settings[key] == value
    ensures r.settings.Keys == s.settings.Keys + {key}
    ensures forall k :: k in s.settings && k != key ==> r.settings[k] == s.settings[k]
    ensures r.loaded == s.loaded
  {
    s.(settings := s.settings[key := value])
  }

  /** `updateMultipleSettings(updates)`. */
  function UpdateMultipleSettings(s: SettingsState, updates: map<string, Json>): (r: SettingsState)
    ensures r.settings == Merge(s.settings, updates) && r.loaded == s.loaded
  {
    s.(settings := Merge(s.settings, updates))
  }

  /** Updating one key is updating several with a one-key record. */
  lemma UpdateOneIsUpdateMany(s: SettingsState, key: string, value: Json)
    ensures UpdateSetting(s, key, value) == UpdateMultipleSettings(s, map[key := value])
  {
  }

  /** `resetSettings`: exactly the defaults, whatever keys were added since. */
  function ResetSettings(s: SettingsState): (r: SettingsState)
    ensures r.settings == DEFAULTS && r.loaded == s.loaded
    ensures forall k :: k !in DEFAULTS ==> k !in r.settings
  {
    s.(settings := DEFAULTS)
  }

  /** A reset undoes any updates made before it. */
  lemma ResetForgetsUpdates(s: SettingsState, updates: map<string, Json>)
    ensures ResetSettings(UpdateMultipleSettings(s, updates)) == ResetSettings(s)
  {
  }

  /** `importSettings(text)`: a text that parses is spread over the settings and the import
      reports success, whatever kind of value it held; a text that does not parse reports
      failure and changes nothing. */
  function ImportSettings(s: SettingsState, text: string, parse: string -> Parsed): (r: (SettingsState, bool))
    ensures parse(text).ParseError? ==> r == (s, false)
    ensures parse(text).Value? ==> r.1 && r.0.settings == Merge(s.settings, Spread(parse(text).v))
    ensures r.0.loaded == s.loaded
  {
    match parse(text)
    case Value(v) => (s.(settings := Merge(s.settings, Spread(v))), true)
    case ParseError => (s, false)
  }

  /** Importing the same text twice leaves the settings as importing it once. */
  lemma ImportIdempotent(s: SettingsState, text: string, parse: string -> Parsed)
    ensures ImportSettings(ImportSettings(s, text, parse).0, text, parse) == ImportSettings(s, text, parse)
  {
    if parse(text).Value? {
      MergeIdempotent(s.settings, Spread(parse(text).v));
    }
  }

  /** The load on mount: a saved text (an empty one counts as none) that parses is spread over
      the current settings; one that does not parse is ignored; either way the store is then
      loaded. */
  function Load(s: SettingsState, saved: Option<string>, parse: string -> Parsed): (r: SettingsState)
    ensures r.loaded
    ensures saved.None? || saved.value == "" || parse(saved.value).ParseError? ==> r.settings == s.settings
    ensures saved.Some? && saved.value != "" && parse(saved.value).Value? ==>
              r.settings == Merge(s.settings, Spread(parse(saved.value).v))
  {
    if saved.Some? && saved.value != "" then
      match parse(saved.value)
      case Value(v) => SettingsState(Merge(s.settings, Spread(v)), true)
      case ParseError => s.(loaded := true)
    else s.(loaded := true)
  }

  /** Loading from the initial state keeps every default the saved record does not name, and
      takes every value it does. */
  lemma LoadOverDefaults(saved: string, parse: string -> Parsed, fields: map<string, Json>)
    requires saved != "" && parse(saved) == Value(JObj(fields))
    ensures var r := Load(Initial(), Some(saved), parse);
            (forall k :: k in DEFAULTS && k !in fields ==> r.settings[k] == DEFAULTS[k])
            && (forall k :: k in fields ==> r.settings[k] == fields[k])
  {
  }

  /** What the save effect writes to storage: nothing until loading has completed, the whole
      record afterwards. */
  function SaveEffect(s: SettingsState): (written: Option<Json>)
    ensures written.Some? <==> s.loaded
    ensures written.Some? ==> written.value == JObj(s.settings)
  {
    if s.loaded then Some(JObj(s.settings)) else None
  }

  /** The defaults are never written over a saved record before it has been read. */
  lemma NoSaveBeforeLoad()
    ensures SaveEffect(Initial()).None?
  {
  }
}
