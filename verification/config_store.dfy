/**
 * The configuration store of src/config_manager.py, which the gesture engine
 * reads: a JSON object with a "gestures" section (gesture kind to action
 * name), an "options" section and the "target_device" entry. Unlike the older
 * store, the section getters fall back to an empty section and the section
 * setters create a missing one. Loading and saving the file are outside the
 * model; a store is its in-memory object.
 */
module ConfigStore {
  import opened Wrappers
  import opened PyValue

  /** The in-memory configuration: the top-level JSON object. */
  type Config = map<string, Value>

  const DefaultConfig: Config := map[
    "gestures" := Obj(map[
      "single_tap" := Str("Play / Pause"),
      "double_tap" := Str("Scroll Down"),
      "triple_tap" := Str("Alt + Tab"),
      "long_press" := Str("Switch Desktop")
    ]),
    "options" := Obj(map["notifications" := Bool(true), "start_with_windows" := Bool(false)]),
    "target_device" := Null
  ]

  /** `get(key, default)`: the stored value, or `default` when the key is absent. */
  function GetKey(c: Config, key: string, default: Value): (r: Value)
    ensures key in c ==> r == c[key]
    ensures key !in c ==> r == default
  {
    if key in c then c[key] else default
  }

  /** `set(key, value)`. */
  function SetKey(c: Config, key: string, value: Value): (r: Config)
    ensures GetKey(r, key, Null) == value
    ensures r.Keys == c.Keys + {key}
    ensures forall k, d :: k != key ==> GetKey(r, k, d) == GetKey(c, k, d)
  {
    c[key := value]
  }

  /** `config.get(section, {}).get(name)`: None when the section or the entry is absent. */
  function GetIn(c: Config, section: string, name: string): (r: Result<Value, PyError>)
    ensures section !in c ==> r == Success(Null)
    ensures section in c ==> (r.Success? <==> c[section].Obj?)
    ensures r.Failure? ==> r.error == AttributeError
    ensures section in c && r.Success? && name in c[section].fields ==> r.value == c[section].fields[name]
    ensures section in c && r.Success? && name !in c[section].fields ==> r.value == Null
  {
    Get(GetKey(c, section, Obj(map[])), name, Null)
  }

  /** The section is absent or a dict, so the section setters succeed on it. */
  predicate Settable(c: Config, section: string) {
    section !in c || c[section].Obj?
  }

  /** Create the section if it is missing, then `config[section][name] = value`. */
  function SetIn(c: Config, section: string, name: string, value: Value): (r: Result<Config, PyError>)
    ensures r.Success? <==> Settable(c, section)
    ensures r.Failure? ==> r.error == TypeError
    ensures r.Success? ==> GetIn(r.value, section, name) == Success(value)
    ensures r.Success? ==> forall n :: n != name ==> GetIn(r.value, section, n) == GetIn(c, section, n)
    ensures r.Success? ==> r.value.Keys == c.Keys + {section}
    ensures r.Success? ==> forall k :: k in c && k != section ==> r.value[k] == c[k]
  {
    var withSection := if section !in c then c[section := Obj(map[])] else c;
    match SetItem(withSection[section], name, value)
    case Success(s) => Success(withSection[section := s])
    case Failure(e) => Failure(e)
  }

  /** `get_gesture`: the action of a gesture kind, None when unset. */
  function GetGesture(c: Config, gesture: string): (r: Result<Value, PyError>)
    ensures "gestures" !in c ==> r == Success(Null)
    ensures "gestures" in c ==> (r.Success? <==> c["gestures"].Obj?)
    ensures r.Failure? ==> r.error == AttributeError
    ensures r.Success? && "gestures" in c && gesture in c["gestures"].fields ==> r.value == c["gestures"].fields[gesture]
    ensures r.Success? && "gestures" in c && gesture !in c["gestures"].fields ==> r.value == Null
  {
    GetIn(c, "gestures", gesture)
  }

  /** `set_gesture`: creates the section when it is missing. */
  function SetGesture(c: Config, gesture: string, action: Value): (r: Result<Config, PyError>)
    ensures r.Success? <==> Settable(c, "gestures")
    ensures r.Failure? ==> r.error == TypeError
    ensures r.Success? ==> "gestures" in r.value && GetGesture(r.value, gesture) == Success(action)
    ensures r.Success? ==> r.value.Keys == c.Keys + {"gestures"}
    ensures r.Success? ==> forall k :: k in c && k != "gestures" ==> r.value[k] == c[k]
  {
    SetIn(c, "gestures", gesture, action)
  }

  /** `get_option`: an option's value, None when unset. */
  function GetOption(c: Config, name: string): (r: Result<Value, PyError>)
    ensures "options" !in c ==> r == Success(Null)
    ensures "options" in c ==> (r.Success? <==> c["options"].Obj?)
    ensures r.Failure? ==> r.error == AttributeError
    ensures r.Success? && "options" in c && name in c["options"].fields ==> r.value == c["options"].fields[name]
    ensures r.Success? && "options" in c && name !in c["options"].fields ==> r.value == Null
  {
    GetIn(c, "options", name)
  }

  /** `set_option`: creates the section when it is missing. */
  function SetOption(c: Config, name: string, value: Value): (r: Result<Config, PyError>)
    ensures r.Success? <==> Settable(c, "options")
    ensures r.Failure? ==> r.error == TypeError
    ensures r.Success? ==> "options" in r.value && GetOption(r.value, name) == Success(value)
    ensures r.Success? ==> r.value.Keys == c.Keys + {"options"}
    ensures r.Success? ==> forall k :: k in c && k != "options" ==> r.value[k] == c[k]
  {
    SetIn(c, "options", name, value)
  }

  /** `get_target_device`: the configured device, None when unset. */
  function GetTargetDevice(c: Config): (r: Value)
    ensures "target_device" in c ==> r == c["target_device"]
    ensures "target_device" !in c ==> r == Null
  {
    GetKey(c, "target_device", Null)
  }

  /** `set_target_device`. */
  function SetTargetDevice(c: Config, device: Value): (r: Config)
    ensures GetTargetDevice(r) == device
    ensures r.Keys == c.Keys + {"target_device"}
    ensures forall k :: k in c && k != "target_device" ==> r[k] == c[k]
  {
    SetKey(c, "target_device", device)
  }

  // ---------------------------------------------------------------------------
  // Properties
  // ---------------------------------------------------------------------------

  /** `set` then `get` returns the stored value, whatever default is offered; `get` of an absent key is the default. */
  lemma SetThenGet(c: Config, key: string, value: Value, default: Value)
    ensures GetKey(SetKey(c, key, value), key, default) == value
    ensures key !in c ==> GetKey(c, key, default) == default
  {
  }

  /**
   * `set_gesture` then `get_gesture` returns the stored action, creating the
   * section when it is missing; other gestures, the options and every other
   * top-level entry are unchanged.
   */
  lemma SetGestureThenGet(c: Config, gesture: string, action: Value)
    requires Settable(c, "gestures")
    ensures SetGesture(c, gesture, action).Success?
    ensures var c' := SetGesture(c, gesture, action).value;
            && "gestures" in c'
            && GetGesture(c', gesture) == Success(action)
            && (forall g :: g != gesture ==> GetGesture(c', g) == GetGesture(c, g))
            && (forall n :: GetOption(c', n) == GetOption(c, n))
            && GetTargetDevice(c') == GetTargetDevice(c)
  {
  }

  /** The same round trip for `set_option` and `get_option`. */
  lemma SetOptionThenGet(c: Config, name: string, value: Value)
    requires Settable(c, "options")
    ensures SetOption(c, name, value).Success?
    ensures var c' := SetOption(c, name, value).value;
            && "options" in c'
            && GetOption(c', name) == Success(value)
            && (forall n :: n != name ==> GetOption(c', n) == GetOption(c, n))
            && (forall g :: GetGesture(c', g) == GetGesture(c, g))
            && GetTargetDevice(c') == GetTargetDevice(c)
  {
  }

  /** A section that exists but is not a dict makes its setter raise and its getter raise. */
  lemma MalformedSection(c: Config, section: string, name: string, value: Value)
    requires section in c && !c[section].Obj?
    ensures SetIn(c, section, name, value) == Failure(TypeError)
    ensures GetIn(c, section, name) == Failure(AttributeError)
  {
  }

  /**
   * `set_target_device` then `get_target_device` returns the device and
   * changes nothing else; with nothing set the target is None, as in the
   * default configuration.
   */
  lemma TargetDeviceRoundTrip(c: Config, device: Value)
    ensures GetTargetDevice(SetTargetDevice(c, device)) == device
    ensures forall g :: GetGesture(SetTargetDevice(c, device), g) == GetGesture(c, g)
    ensures forall n :: GetOption(SetTargetDevice(c, device), n) == GetOption(c, n)
    ensures "target_device" !in c ==> GetTargetDevice(c) == Null
    ensures GetTargetDevice(DefaultConfig) == Null
  {
  }

  /** With nothing stored, every getter reports None and every setter succeeds. */
  lemma EmptyConfig(name: string)
    ensures GetGesture(map[], name) == Success(Null)
    ensures GetOption(map[], name) == Success(Null)
    ensures GetTargetDevice(map[]) == Null
    ensures SetGesture(map[], name, Null).Success? && SetOption(map[], name, Null).Success?
  {
  }
}
