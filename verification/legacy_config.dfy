/**
 * The configuration store of config.py, used by the tap-counting detector:
 * a JSON object with a "mappings" section (gesture name to action name) and a
 * "settings" section. Loading fills in every default the file lacks without
 * overwriting anything it has; reading and writing the file is outside the
 * model, so the file arrives already parsed (or as the reason it could not be).
 */
module LegacyConfig {
  import opened Wrappers
  import opened PyValue

  /** A loaded configuration: the top-level JSON object. */
  type Config = map<string, Value>

  const DefaultMappings: map<string, Value> := map[
    "play_pause_single" := Str("none"),
    "play_pause_double" := Str("next_track"),
    "play_pause_triple" := Str("previous_track"),
    "next_track" := Str("next_track"),
    "previous_track" := Str("previous_track")
  ]

  const DefaultSettings: map<string, Value> := map[
    "start_with_windows" := Bool(false),
    "gesture_window_ms" := Int(400)
  ]

  const DefaultConfig: Config := map["mappings" := Obj(DefaultMappings), "settings" := Obj(DefaultSettings)]

  /** What reading the configuration file produced. */
  datatype ConfigFile =
    | Missing                // the file does not exist
    | Unreadable             // reading raised an IOError or the text is not JSON
    | Parsed(content: Value) // the JSON value the file holds

  /** `fields` with every key of `defaults` it lacks added; present keys keep their values. */
  function FillMissing(fields: map<string, Value>, defaults: map<string, Value>): (r: map<string, Value>)
    ensures r.Keys == fields.Keys + defaults.Keys
    ensures forall k :: k in fields ==> r[k] == fields[k]
    ensures forall k :: k in defaults && k !in fields ==> r[k] == defaults[k]
  {
    map k | k in fields.Keys + defaults.Keys :: if k in fields then fields[k] else defaults[k]
  }

  /**
   * The inner loop of the merge over one loaded section: each default subkey
   * the section does not contain is assigned. A dict gains the missing
   * subkeys; any other section survives only if Python's `in` finds every
   * subkey in it, because otherwise the `in` test or the assignment raises
   * a TypeError.
   */
  function MergeSection(section: Value, defaults: map<string, Value>): (r: Result<Value, PyError>)
    ensures section.Obj? ==> r == Success(Obj(FillMissing(section.fields, defaults)))
    ensures !section.Obj? ==>
              (r.Success? <==> forall k :: k in defaults ==> Contains(section, k) == Success(true))
    ensures !section.Obj? && r.Success? ==> r.value == section
    ensures r.Failure? ==> r.error == TypeError
  {
    if section.Obj? then Success(Obj(FillMissing(section.fields, defaults)))
    else if forall k :: k in defaults ==> Contains(section, k) == Success(true) then Success(section)
    else Failure(TypeError)
  }

  /** One iteration of the outer loop: add a missing section whole, or merge into the present one. */
  function MergeKey(c: Config, key: string, defaults: map<string, Value>): (r: Result<Config, PyError>)
    ensures r.Success? ==> r.value.Keys == c.Keys + {key}
    ensures key !in c ==> r.Success? && r.value[key] == Obj(defaults)
    ensures key in c ==> (r.Success? <==> MergeSection(c[key], defaults).Success?)
    ensures key in c && r.Success? ==> r.value[key] == MergeSection(c[key], defaults).value
    ensures r.Success? ==> forall k :: k in c && k != key ==> r.value[k] == c[k]
    ensures r.Failure? ==> r.error == TypeError
  {
    if key !in c then Success(c[key := Obj(defaults)])
    else
      match MergeSection(c[key], defaults)
      case Success(section) => Success(c[key := section])
      case Failure(e) => Failure(e)
  }

  /**
   * The merge of `load_config` over the parsed file. A top-level value that
   * is not an object makes the first `in` test or assignment raise a
   * TypeError, whatever it is.
   */
  function Merge(loaded: Value): (r: Result<Config, PyError>)
    ensures r.Success? ==> loaded.Obj? && r.value.Keys == loaded.fields.Keys + {"mappings", "settings"}
    ensures r.Success? && r.value["mappings"].Obj? ==> DefaultMappings.Keys <= r.value["mappings"].fields.Keys
    ensures r.Success? && r.value["settings"].Obj? ==> DefaultSettings.Keys <= r.value["settings"].fields.Keys
    ensures r.Success? && "mappings" !in loaded.fields ==> r.value["mappings"] == Obj(DefaultMappings)
    ensures r.Success? && "settings" !in loaded.fields ==> r.value["settings"] == Obj(DefaultSettings)
    ensures r.Success? && "mappings" in loaded.fields && loaded.fields["mappings"].Obj? ==>
              && r.value["mappings"].Obj?
              && forall k :: k in DefaultMappings && k !in loaded.fields["mappings"].fields ==>
                r.value["mappings"].fields[k] == DefaultMappings[k]
    ensures r.Success? && "settings" in loaded.fields && loaded.fields["settings"].Obj? ==>
              && r.value["settings"].Obj?
              && forall k :: k in DefaultSettings && k !in loaded.fields["settings"].fields ==>
                r.value["settings"].fields[k] == DefaultSettings[k]
    ensures r.Success? && "mappings" in loaded.fields && loaded.fields["mappings"].Obj? ==>
              r.value["mappings"] == Obj(FillMissing(loaded.fields["mappings"].fields, DefaultMappings))
    ensures r.Success? && "settings" in loaded.fields && loaded.fields["settings"].Obj? ==>
              r.value["settings"] == Obj(FillMissing(loaded.fields["settings"].fields, DefaultSettings))
    ensures r.Failure? ==> r.error == TypeError
  {
    if !loaded.Obj? then Failure(TypeError)
    else
      match MergeKey(loaded.fields, "mappings", DefaultMappings)
      case Failure(e) => Failure(e)
      case Success(c) => MergeKey(c, "settings", DefaultSettings)
  }

  /** `load_config`: the defaults when the file is missing or unreadable, else the merged content. */
  function LoadConfig(file: ConfigFile): (r: Result<Config, PyError>)
    ensures file.Missing? || file.Unreadable? ==> r == Success(DefaultConfig)
    ensures file.Parsed? ==> r == Merge(file.content)
  {
    match file
    case Missing => Success(DefaultConfig)
    case Unreadable => Success(DefaultConfig)
    case Parsed(v) => Merge(v)
  }

  // ---------------------------------------------------------------------------
  // Reading and writing one entry of a section
  // ---------------------------------------------------------------------------

  /** `config[section].get(name, default)`. */
  function GetIn(c: Config, section: string, name: string, default: Value): (r: Result<Value, PyError>)
    ensures section !in c ==> r == Failure(KeyError)
    ensures section in c ==> (r.Success? <==> c[section].Obj?)
    ensures r.Success? && name in c[section].fields ==> r.value == c[section].fields[name]
    ensures r.Success? && name !in c[section].fields ==> r.value == default
  {
    if section !in c then Failure(KeyError) else Get(c[section], name, default)
  }

  /** `config[section][name] = value`. */
  function SetIn(c: Config, section: string, name: string, value: Value): (r: Result<Config, PyError>)
    ensures r.Success? <==> HasDictSection(c, section)
    ensures section !in c ==> r == Failure(KeyError)
    ensures section in c && !c[section].Obj? ==> r == Failure(TypeError)
    ensures r.Success? ==> GetIn(r.value, section, name, Null) == Success(value)
    ensures r.Success? ==> forall n, d :: n != name ==> GetIn(r.value, section, n, d) == GetIn(c, section, n, d)
    ensures r.Success? ==> r.value.Keys == c.Keys && forall k :: k in c && k != section ==> r.value[k] == c[k]
  {
    if section !in c then Failure(KeyError)
    else
      match SetItem(c[section], name, value)
      case Success(s) => Success(c[section := s])
      case Failure(e) => Failure(e)
  }

  /** `get_mapping`: the stored action, or "none" when the gesture has none. */
  function GetMapping(c: Config, gesture: string): (r: Result<Value, PyError>)
    ensures "mappings" !in c ==> r == Failure(KeyError)
    ensures "mappings" in c ==> (r.Success? <==> c["mappings"].Obj?)
    ensures r.Success? && gesture in c["mappings"].fields ==> r.value == c["mappings"].fields[gesture]
    ensures r.Success? && gesture !in c["mappings"].fields ==> r.value == Str("none")
  {
    GetIn(c, "mappings", gesture, Str("none"))
  }

  /** `set_mapping` without the save to disk. */
  function SetMapping(c: Config, gesture: string, action: Value): (r: Result<Config, PyError>)
    ensures r.Success? <==> HasDictSection(c, "mappings")
    ensures r.Success? ==> GetMapping(r.value, gesture) == Success(action)
    ensures r.Success? ==> r.value.Keys == c.Keys && forall k :: k in c && k != "mappings" ==> r.value[k] == c[k]
  {
    SetIn(c, "mappings", gesture, action)
  }

  /** `get_setting`: the stored value, or None when the setting is absent. */
  function GetSetting(c: Config, name: string): (r: Result<Value, PyError>)
    ensures "settings" !in c ==> r == Failure(KeyError)
    ensures "settings" in c ==> (r.Success? <==> c["settings"].Obj?)
    ensures r.Success? && name in c["settings"].fields ==> r.value == c["settings"].fields[name]
    ensures r.Success? && name !in c["settings"].fields ==> r.value == Null
  {
    GetIn(c, "settings", name, Null)
  }

  /** `set_setting` without the save to disk. */
  function SetSetting(c: Config, name: string, value: Value): (r: Result<Config, PyError>)
    ensures r.Success? <==> HasDictSection(c, "settings")
    ensures r.Success? ==> GetSetting(r.value, name) == Success(value)
    ensures r.Success? ==> r.value.Keys == c.Keys && forall k :: k in c && k != "settings" ==> r.value[k] == c[k]
  {
    SetIn(c, "settings", name, value)
  }

  // ---------------------------------------------------------------------------
  // Properties
  // ---------------------------------------------------------------------------

  /** The configuration holds `section`, and it is a dict. */
  predicate HasDictSection(c: Config, section: string) {
    section in c && c[section].Obj?
  }

  /**
   * After a successful merge every default section is present, every default
   * subkey is present in a section that is a dict, and no top-level key is
   * lost or invented.
   */
  lemma MergeComplete(loaded: Value)
    requires Merge(loaded).Success?
    ensures var c := Merge(loaded).value;
            && loaded.Obj?
            && "mappings" in c && "settings" in c
            && (c["mappings"].Obj? ==> DefaultMappings.Keys <= c["mappings"].fields.Keys)
            && (c["settings"].Obj? ==> DefaultSettings.Keys <= c["settings"].fields.Keys)
            && c.Keys == loaded.fields.Keys + {"mappings", "settings"}
  {
  }

  /** The merge never overwrites a value the file held, at the top level or inside a section. */
  lemma MergeKeepsLoaded(loaded: Value)
    requires Merge(loaded).Success?
    ensures var c := Merge(loaded).value;
            && (forall k :: k in loaded.fields && k != "mappings" && k != "settings" ==> c[k] == loaded.fields[k])
            && (forall s, k :: s in {"mappings", "settings"} && s in loaded.fields && loaded.fields[s].Obj?
                              && k in loaded.fields[s].fields
                              ==> c[s].Obj? && k in c[s].fields && c[s].fields[k] == loaded.fields[s].fields[k])
            && (forall s :: s in {"mappings", "settings"} && s in loaded.fields && !loaded.fields[s].Obj?
                            ==> c[s] == loaded.fields[s])
  {
  }

  /** The merge fails exactly when the file is not an object or holds a section that is neither a dict nor contains every subkey. */
  lemma MergeFails(loaded: Value)
    ensures Merge(loaded).Failure? <==>
              || !loaded.Obj?
              || ("mappings" in loaded.fields && MergeSection(loaded.fields["mappings"], DefaultMappings).Failure?)
              || ("settings" in loaded.fields && MergeSection(loaded.fields["settings"], DefaultSettings).Failure?)
  {
  }

  /** A well-formed file with both sections as dicts always loads. */
  lemma LoadDictSections(loaded: map<string, Value>)
    requires forall s :: s in loaded && (s == "mappings" || s == "settings") ==> loaded[s].Obj?
    ensures LoadConfig(Parsed(Obj(loaded))).Success?
    ensures HasDictSection(LoadConfig(Parsed(Obj(loaded))).value, "mappings")
    ensures HasDictSection(LoadConfig(Parsed(Obj(loaded))).value, "settings")
  {
  }

  /** `get_mapping` after `set_mapping` returns the stored action; other mappings and all settings are unchanged. */
  lemma SetMappingThenGet(c: Config, gesture: string, action: Value)
    requires SetMapping(c, gesture, action).Success?
    ensures var c' := SetMapping(c, gesture, action).value;
            && GetMapping(c', gesture) == Success(action)
            && (forall g :: g != gesture ==> GetMapping(c', g) == GetMapping(c, g))
            && (forall n :: GetSetting(c', n) == GetSetting(c, n))
            && (forall k :: k in c && k != "mappings" ==> k in c' && c'[k] == c[k])
  {
  }

  /** `get_setting` after `set_setting` returns the stored value; other settings and all mappings are unchanged. */
  lemma SetSettingThenGet(c: Config, name: string, value: Value)
    requires SetSetting(c, name, value).Success?
    ensures var c' := SetSetting(c, name, value).value;
            && GetSetting(c', name) == Success(value)
            && (forall n :: n != name ==> GetSetting(c', n) == GetSetting(c, n))
            && (forall g :: GetMapping(c', g) == GetMapping(c, g))
            && (forall k :: k in c && k != "settings" ==> k in c' && c'[k] == c[k])
  {
  }

  /** The setters succeed exactly on a dict section; reading an absent entry gives the fallback. */
  lemma SettersAndFallbacks(c: Config, name: string, v: Value)
    ensures SetMapping(c, name, v).Success? <==> HasDictSection(c, "mappings")
    ensures SetSetting(c, name, v).Success? <==> HasDictSection(c, "settings")
    ensures HasDictSection(c, "mappings") && name !in c["mappings"].fields ==> GetMapping(c, name) == Success(Str("none"))
    ensures HasDictSection(c, "settings") && name !in c["settings"].fields ==> GetSetting(c, name) == Success(Null)
  {
  }
}
