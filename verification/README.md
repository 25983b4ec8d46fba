# Media-key gesture control, modelled in Dafny

This project models the core of a Bluetooth-earbuds controller that turns
presses of the play/pause media key into gestures.

The centre of it is the gesture engine of `src/gesture_engine.py`, written as
a pure step function from a state and an event to the next state and a list
of effects:

- The engine hooks the key in suppressing mode and times each press.
- A release more than 500 ms after the press is a long press. Any other
  release is a tap.
- Taps less than 400 ms apart accumulate. When the debounce timer fires they
  resolve to a single, double or triple tap, and the configured action runs.
- When no target device is configured, or the device is not connected, every
  key event is passed through: unhook, re-send, hook again.

Around the engine sit smaller pieces of pure logic:

- the older tap counter of `gesture_detector.py`, with a configurable window;
- the two configuration stores: `config.py` with its default-merging loader,
  and `src/config_manager.py` with section getters and setters that fall back
  or create;
- the device-connectivity check of `src/bluetooth_manager.py`, including the
  normalisation of the PowerShell device list.

## How the model is built

- `PyValue` (pyvalue.dfy) models configuration values as Python's `json`
  module loads them. It covers Python truthiness, `in`, `dict.get` and item
  assignment, including the `KeyError`, `AttributeError` and `TypeError` a
  malformed configuration makes the code raise. Errors are `Result` failures.
  In the engine and the detector they become a `Raised` effect.
- `Text` (text.dfy) models Python's `str.split`, `str.strip` (with
  `str.isspace`'s character set) and the code-point order of `sorted`.
- `Bluetooth` (bluetooth.dfy) is the connectivity check. The outcome of the
  PowerShell query is a `Probe` parameter: a return code and stdout, or
  `Crashed` for an exception. The operating system is a parameter too.
- `LegacyConfig` (legacy_config.dfy) is `config.py`. `ConfigStore`
  (config_store.dfy) is `src/config_manager.py`. Both work on the in-memory
  object; the file arrives already parsed.
- `Traces` (traces.dfy) feeds a list of events to a step function and
  concatenates the effects.
- `GestureDetector` (gesture_detector.dfy) is the older counter of
  `gesture_detector.py`. Its `threading.Timer` becomes a pending deadline plus a
  `TimerFire` event.
- `GestureEngine` (gesture_engine.dfy) is the engine:
  - Events are `Start`, `Stop`, `KeyDown`, `KeyUp` and `TimerFire`, each
    carrying a time in integer milliseconds.
  - The timer fires on its own thread in the source. So before any event at
    time `at`, a pending timer whose deadline is `at` or earlier fires first.
  - Effects are `Install`, `Uninstall`, `Send` (the re-sent key event),
    `Dispatch` (the action manager runs an action) and `Raised`.
  - Hook handles are natural numbers drawn from a counter in the state.
  - The environment fixes the configuration, the connectivity inputs, and
    which key name the keyboard library accepts.
- `EngineProperties` (engine_properties.dfy) proves two things:
  - the state invariant every event keeps, and that a stopped engine is
    inert;
  - pass-through while the device is away.
- `EngineScenarios` (engine_scenarios.dfy) covers tap accumulation and
  resolution, long presses, and the four scenarios of `tests/test_logic.py`.
  Their sleeps become event times: a 50 ms press, 100 ms between taps, and
  500 ms of quiet.

Two modelling choices for the engine's lifecycle:

- `start` is modelled as the code has it. It marks the engine running before
  it installs the hooks, so it stays running with no hooks when neither key
  name is accepted.
- `stop` appears twice. `GestureEngine.StopAsWritten` is the code's `stop`,
  which leaves the debounce timer pending (see "## Findings").
  `GestureEngine.StopEngine` is the corrected stop, which also cancels the
  timer and clears the taps. The engine's `Step` uses the corrected stop.
  The engine invariant of `EngineProperties` and the inertness of a stopped
  engine hold with the corrected stop only.

## Model

| member | source | states |
|---|---|---|
| PyValue.Contains | config.py:38 | Python's `in` for a string key: dict membership, substring, list membership, and a TypeError exactly for None, bools and numbers |
| PyValue.Get | src/config_manager.py:48 | `.get(k, default)` succeeds exactly on a dict, giving the stored value or the default; on anything else it raises AttributeError |
| PyValue.SetItem | config.py:55 | `container[k] = v` succeeds exactly on a dict, stores `v` under `k` and keeps every other key; otherwise TypeError |
| Text.Split | src/bluetooth_manager.py:50 | `split('\n')` gives at least one piece, no piece contains the separator, and joining the pieces with the separator gives back the input |
| Text.SplitJoin | src/bluetooth_manager.py:50 | splitting a join recovers the parts when no part contains the separator |
| Text.StripSlice | src/bluetooth_manager.py:50 | `strip()` returns a slice of its input; everything cut off on either side is whitespace; a non-empty result neither starts nor ends with whitespace |
| Text.StripIdempotent | src/bluetooth_manager.py:50 | stripping twice is stripping once |
| Text.InsertSorted | src/bluetooth_manager.py:51 | inserting into a strictly ascending list keeps it strictly ascending and adds exactly the new element, ignoring a duplicate |
| Text.AscendingUnique | src/bluetooth_manager.py:51 | two strictly ascending lists with the same elements are equal, so the sorted list of a set is unique |
| Bluetooth.Normalize | src/bluetooth_manager.py:50-51 | the normalised lines are strictly ascending (hence duplicate-free) and their elements are exactly the stripped non-blank lines |
| Bluetooth.NormalizedLines | src/bluetooth_manager.py:50-51 | every reported name is non-empty and is the stripped form of an output line; every non-blank line appears stripped |
| Bluetooth.NormalizeIsSortedSet | src/bluetooth_manager.py:51 | the reported list equals any strictly ascending list of exactly the listed names, which is what `sorted(list(set(...)))` returns |
| Bluetooth.WindowsDevices | src/bluetooth_manager.py:31-54 | a non-zero return code or an exception gives the empty list; otherwise the normalised lines of stdout |
| Bluetooth.PairedDevices | src/bluetooth_manager.py:9-17 | the query's names on Windows, the fixed four mock names on every other system |
| Bluetooth.CheckWindowsConnection | src/bluetooth_manager.py:56-60 | true exactly when the name is a string and a stripped non-blank line of a successful query's output |
| Bluetooth.CheckMockConnection | src/bluetooth_manager.py:66-68 | always true |
| Bluetooth.IsDeviceConnected | src/bluetooth_manager.py:19-29 | false for an empty or None name on every system; true for any other name off Windows; on Windows true exactly when the name is listed by a successful query |
| LegacyConfig.FillMissing | config.py:37-39 | adds exactly the missing default subkeys; values already present are kept |
| LegacyConfig.MergeSection | config.py:36-39 | a dict section gains the missing default subkeys; any other section survives unchanged only if `in` finds every subkey in it, otherwise TypeError |
| LegacyConfig.MergeKey | config.py:34-39 | a missing section is added whole with its default value; a present one is replaced by its section merge, and the step fails exactly when that does; no other top-level key changes |
| LegacyConfig.Merge | config.py:33-40 | a successful merge means the file held an object; its keys are the file's plus both sections; a missing section is the default section; a loaded dict section gains exactly the default subkeys it lacked, each with its default value, and nothing else; failure is a TypeError |
| LegacyConfig.LoadConfig | config.py:25-42 | a missing or unreadable file gives the defaults; a parsed file gives the merge of its content |
| LegacyConfig.GetIn | config.py:51-52 | an absent section raises KeyError, a non-dict section raises; otherwise the stored value or the fallback |
| LegacyConfig.SetIn | config.py:54-55 | succeeds exactly on a present dict section; then a read returns the value, other entries read the same, and other top-level keys are unchanged |
| LegacyConfig.GetMapping | config.py:51-52 | KeyError without a "mappings" section; a non-dict section fails; otherwise the stored action, or "none" |
| LegacyConfig.SetMapping | config.py:54-55 | succeeds exactly on a dict "mappings" section; then `get_mapping` returns the action and no other top-level key changes |
| LegacyConfig.GetSetting | config.py:58-59 | KeyError without a "settings" section; a non-dict section fails; otherwise the stored value, or None |
| LegacyConfig.SetSetting | config.py:61-62 | succeeds exactly on a dict "settings" section; then `get_setting` returns the value and no other top-level key changes |
| LegacyConfig.MergeComplete | config.py:33-39 | after a successful merge both default sections are present, dict sections hold every default subkey, and no top-level key is lost or invented |
| LegacyConfig.MergeKeepsLoaded | config.py:34-39 | the merge never overwrites a value the file held, at the top level or inside a section |
| LegacyConfig.MergeFails | config.py:33-39 | the merge fails exactly when the file is not an object or holds a section that is neither a dict nor contains every default subkey |
| LegacyConfig.LoadDictSections | config.py:29-40 | a file whose sections are dicts always loads, with both sections present as dicts |
| LegacyConfig.SetMappingThenGet | config.py:51-56 | `get_mapping` after `set_mapping` returns the stored action; other mappings, all settings and other top-level keys are unchanged |
| LegacyConfig.SetSettingThenGet | config.py:58-63 | `get_setting` after `set_setting` returns the stored value; other settings, all mappings and other top-level keys are unchanged |
| LegacyConfig.SettersAndFallbacks | config.py:51-63 | the setters succeed exactly on a dict section; an absent mapping reads "none" and an absent setting reads None |
| ConfigStore.GetKey | src/config_manager.py:41-42 | the stored value, or the supplied default when the key is absent |
| ConfigStore.SetKey | src/config_manager.py:44-45 | afterwards the key reads the value, the key set grows by that key, and every other key reads as before |
| ConfigStore.GetIn | src/config_manager.py:47-48 | None when the section is absent; when present it succeeds exactly if the section is a dict, giving the entry or None; otherwise AttributeError |
| ConfigStore.SetIn | src/config_manager.py:50-53 | succeeds exactly when the section is absent or a dict, creating a missing one; then the entry reads back, other entries and top-level keys are unchanged; otherwise TypeError |
| ConfigStore.GetGesture | src/config_manager.py:47-48 | None without a "gestures" section; AttributeError for a non-dict one; otherwise the action or None |
| ConfigStore.SetGesture | src/config_manager.py:50-53 | succeeds exactly when "gestures" is absent or a dict, creating it; then `get_gesture` returns the action and no other top-level key changes; otherwise TypeError |
| ConfigStore.GetOption | src/config_manager.py:55-56 | None without an "options" section; AttributeError for a non-dict one; otherwise the value or None |
| ConfigStore.SetOption | src/config_manager.py:58-61 | succeeds exactly when "options" is absent or a dict, creating it; then `get_option` returns the value and no other top-level key changes; otherwise TypeError |
| ConfigStore.GetTargetDevice | src/config_manager.py:63-64 | the stored target device, or None when unset |
| ConfigStore.SetTargetDevice | src/config_manager.py:66-67 | afterwards the target device reads back, and every other top-level key is unchanged |
| ConfigStore.SetThenGet | src/config_manager.py:41-45 | `get` after `set` returns the value whatever default is offered; `get` of an absent key is the default |
| ConfigStore.SetGestureThenGet | src/config_manager.py:47-53 | `set_gesture` creates the section if needed and `get_gesture` returns the action; other gestures, all options and the target device are unchanged |
| ConfigStore.SetOptionThenGet | src/config_manager.py:55-61 | the same round trip for options, leaving gestures and the target device unchanged |
| ConfigStore.MalformedSection | src/config_manager.py:47-61 | a present section that is not a dict makes the setter raise TypeError and the getter raise AttributeError |
| ConfigStore.TargetDeviceRoundTrip | src/config_manager.py:63-67 | `get_target_device` after `set_target_device` returns the device and nothing else changes; unset it is None, as in the defaults |
| ConfigStore.EmptyConfig | src/config_manager.py:47-61 | on an empty store every getter reads None and every setter succeeds |
| GestureDetector.TierIsCappedCount | gesture_detector.py:30-38 | a count of 0 names no mapping; count n > 0 names tier min(n, 3) of single, double, triple |
| GestureDetector.WindowMs | gesture_detector.py:20 | a missing or falsy `gesture_window_ms` gives 400; a non-zero integer is used as is; `True` is 1 ms; a non-empty string, list or dict raises TypeError; a failing read fails with its error |
| GestureDetector.OnPlayPause | gesture_detector.py:13-22 | a press adds exactly one tap and leaves exactly one pending timer, due one window later; if reading the window raises, no timer is pending |
| GestureDetector.ProcessTaps | gesture_detector.py:24-38 | the count and the timer are cleared whatever happens next; nothing is dispatched exactly when the count was 0; otherwise the mapping of tier min(n, 3) |
| GestureDetector.OnTimerFire | gesture_detector.py:21-22 | a due timer processes the taps; otherwise nothing happens |
| GestureDetector.OnTrackKey | gesture_detector.py:40-46 | the track keys dispatch their own mapping and leave the tap state alone |
| GestureDetector.Step | gesture_detector.py:13-46 | before any event a timer whose deadline has come resolves the taps first, and the event's callback then runs on the detector at rest; otherwise the callback runs alone |
| GestureDetector.PressesAccumulate | gesture_detector.py:13-22 | presses each within the previous window accumulate: count up by N, one timer for the last press, nothing dispatched |
| GestureDetector.NPressesOneDispatch | gesture_detector.py:13-38 | N presses within the window, then the deadline: exactly one dispatch, of tier min(N, 3), and the detector back at rest |
| GestureDetector.TrackKeysLeaveTaps | gesture_detector.py:40-46 | the track keys dispatch their own mapping and never change the count or a timer not yet due; a due timer resolves the taps before them |
| GestureDetector.DefaultDoublePress | gesture_detector.py:13-38 | with the default configuration the window is 400 ms and two quick presses dispatch "next_track" |
| GestureDetector.DefaultSeparatePresses | gesture_detector.py:13-38 | two presses 450 ms apart under the defaults are two single presses, each dispatching "none" |
| GestureEngine.Installs | src/gesture_engine.py:42-51 | the press hook then the release hook, under "play/pause media" when the library accepts it, else under "play/pause", else nothing |
| GestureEngine.InstallHooks | src/gesture_engine.py:41-53 | exactly those installs: the press hook then the release hook under the first accepted key name, with fresh ascending handles that are recorded, or none; nothing else changes |
| GestureEngine.StartEngine | src/gesture_engine.py:28-53 | a no-op when running; otherwise running afterwards with exactly the installs of `Installs` (press hook then release hook under the accepted key name, fresh handles), those handles recorded after the existing ones, and nothing else changed |
| GestureEngine.StopAsWritten | src/gesture_engine.py:55-61 | a no-op when stopped; otherwise stopped with every hook removed, while the press and tap state and the pending timer stay |
| GestureEngine.StopEngine | src/gesture_engine.py:55-61 | the corrected stop: as written, and also no timer, no taps and no pressed key afterwards |
| GestureEngine.ShouldIntercept | src/gesture_engine.py:63-72 | never without a truthy target device; always for one off Windows; on Windows exactly when the target is listed by a successful query |
| GestureEngine.ReEmit | src/gesture_engine.py:106-135 | unhook every hook, re-send the event in its direction, then the installs again: press hook then release hook under the accepted key name, with fresh ascending handles; the tap state is untouched |
| GestureEngine.ExecuteAction | src/gesture_engine.py:169-176 | an action is dispatched exactly when it is truthy, and then only it |
| GestureEngine.TapGestureIsCappedCount | src/gesture_engine.py:154-167 | a count of 0 names no gesture; count n > 0 names tier min(n, 3) of single_tap, double_tap, triple_tap |
| GestureEngine.HandleLongPress | src/gesture_engine.py:137-143 | dispatches the long_press action, then drops the taps and the timer; a raising lookup leaves them as they were |
| GestureEngine.HandleTap | src/gesture_engine.py:145-152 | one more tap, and the pending timer replaced by one due 400 ms after this release; nothing else in the state changes, and no effect |
| GestureEngine.ResolveTaps | src/gesture_engine.py:154-167 | the timer is gone; a count of 0 does nothing; otherwise the tier min(n, 3) action is dispatched when truthy and the count reset, or on a raising lookup the count is kept |
| GestureEngine.OnTimerFire | src/gesture_engine.py:151-152 | a timer whose deadline has come resolves the taps; otherwise nothing happens |
| GestureEngine.OnKeyDown | src/gesture_engine.py:74-87 | ignored while stopped; re-emitted when not intercepting; otherwise the key is down and the first press time is kept |
| GestureEngine.OnKeyUp | src/gesture_engine.py:89-104 | ignored while stopped or when the key is not down; re-emitted when not intercepting; otherwise a long press if held strictly over 500 ms, else a tap |
| GestureEngine.Step | src/gesture_engine.py:28-167 | a timer whose deadline has come by the event's time fires first and resolves the taps, then the event's callback runs; `Stop` is the corrected stop and leaves no hooks, no timer, no taps and no pressed key |
| EngineProperties.InitialInv | src/gesture_engine.py:13-26 | the constructed engine satisfies the invariant: stopped, no hooks, no timer, no taps |
| EngineProperties.ResolveTapsInv | src/gesture_engine.py:154-167 | resolving taps keeps the invariant |
| EngineProperties.OnTimerFireInv | src/gesture_engine.py:151-152 | the timer firing keeps the invariant |
| EngineProperties.StartEngineInv | src/gesture_engine.py:28-53 | starting keeps the invariant: a running engine holds its full set of hooks |
| EngineProperties.ReEmitInv | src/gesture_engine.py:106-135 | a re-emission keeps the invariant, including ascending fresh handles |
| EngineProperties.OnKeyDownInv | src/gesture_engine.py:74-87 | a key press keeps the invariant |
| EngineProperties.OnKeyUpInv | src/gesture_engine.py:89-104 | a key release keeps the invariant |
| EngineProperties.StepInv | src/gesture_engine.py:28-167 | every event keeps the invariant: a stopped engine holds nothing, a running one its hooks, a pending timer always has taps (with the corrected stop) |
| EngineProperties.RunInv | src/gesture_engine.py:28-167 | every trace from a state satisfying the invariant keeps it (with the corrected stop) |
| EngineProperties.StartStopIdempotent | src/gesture_engine.py:28-61 | starting a started engine and stopping a stopped one change nothing and produce no effect |
| EngineProperties.StoppedEngineIsInert | src/gesture_engine.py:74-91 | a stopped engine ignores every event but a start: no effect, no change of state (with the corrected stop) |
| EngineProperties.StoppedTraceIsInert | src/gesture_engine.py:74-91 | no trace without a start moves a stopped engine or produces an effect (with the corrected stop) |
| EngineProperties.NothingAfterStop | src/gesture_engine.py:55-61 | with the corrected stop, nothing is dispatched after a stop until the next start, whatever was pending |
| EngineProperties.StopAsWrittenStillDispatches | src/gesture_engine.py:55-61 | with stop as written, taps pending at the stop still dispatch their action when the timer comes due |
| EngineProperties.StopAsWrittenCounterexample | src/gesture_engine.py:55-61 | start, a 50 ms tap, stop: the engine is stopped, the timer is due at 450 ms, and then it dispatches the single-tap action |
| EngineProperties.ConnectedIntercepts | tests/test_logic.py:16-31 | the test configuration with the mock connectivity intercepts; with a failed Windows query it does not |
| EngineProperties.ReEmitEffects | src/gesture_engine.py:106-135 | a re-emission re-sends exactly its one event and dispatches nothing |
| EngineProperties.PassThroughStep | src/gesture_engine.py:74-95 | while the device is away and no tap is pending, a key event is re-sent in its own direction; the tap state is untouched and nothing is dispatched |
| EngineProperties.DisconnectedPassesThrough | src/gesture_engine.py:63-95 | while the device is away and no tap is pending, over any run of key events and clock ticks, every key event is re-sent in order and direction, nothing is dispatched, and the tap state is untouched |
| EngineScenarios.PressStep | src/gesture_engine.py:85-87 | a press on a ready engine records its time and nothing else |
| EngineScenarios.TapStep | src/gesture_engine.py:97-104 | a short press counts one tap and re-arms the timer 400 ms after the release, with no effect |
| EngineScenarios.TapsAccumulate | src/gesture_engine.py:145-152 | taps each released within the previous window accumulate: count up by N, the timer due 400 ms after the last release, no effect |
| EngineScenarios.TimerResolves | src/gesture_engine.py:154-167 | a due timer resolves the taps into their tier's action and leaves no taps and no timer |
| EngineScenarios.TapsResolveOnce | src/gesture_engine.py:145-167 | N taps within the window and then the deadline dispatch exactly once, the action of tier min(N, 3), leaving no taps and no timer |
| EngineScenarios.LongPressCancelsTaps | src/gesture_engine.py:137-143 | a press held over 500 ms dispatches the long_press action at once and drops pending taps and their timer |
| EngineScenarios.SeparateTaps | src/gesture_engine.py:145-167 | two taps further apart than the window are two single taps, each dispatching the single_tap action |
| EngineScenarios.ThresholdIsStrict | src/gesture_engine.py:101 | a press of exactly 500 ms is a tap; one of 501 ms is a long press |
| EngineScenarios.StartThenTaps | src/gesture_engine.py:28-167 | a fresh engine started with the device connected: N taps then the deadline install the two hooks and dispatch the tier min(N, 3) action, and nothing else |
| EngineScenarios.TestActions | tests/test_logic.py:19 | the test configuration maps each tap tier to its "Action_" name |
| EngineScenarios.TestScenario | tests/test_logic.py:40-57 | on the connected test device, the taps followed by quiet produce the two installs and the tier's action |
| EngineScenarios.TestSingleTap | tests/test_logic.py:59-66 | one tap then quiet runs "Action_single_tap" once |
| EngineScenarios.TestDoubleTap | tests/test_logic.py:68-77 | two taps 100 ms apart then quiet run "Action_double_tap" once |
| EngineScenarios.TestTripleTap | tests/test_logic.py:79-90 | three taps 100 ms apart then quiet run "Action_triple_tap" once |
| EngineScenarios.StartThenPassThrough | src/gesture_engine.py:74-95 | a fresh engine started with the device away re-sends every key event in order and dispatches nothing |
| EngineScenarios.AwayTap | src/gesture_engine.py:74-104 | a started engine whose target is away re-sends a tap down then up and dispatches nothing |
| EngineScenarios.TestDeviceNotConnected | tests/test_logic.py:92-99 | with the device not connected a tap is re-sent down then up, and no action runs |

## Left out

- Threads, the detector's lock and races between the key callbacks and the timer thread. Events are handled one at a time. A timer whose deadline has come fires before the next event.
- Wall-clock time: `time.time()` and the timers' float seconds become integer milliseconds carried by each event. `Start`, `Stop` and the detector's track keys carry a time only so that a due timer fires before them.
- The whole environment is fixed for a trace: the configuration (including the target device), the operating system, the outcome of the device query, and which key name the hook library accepts. The source re-reads the configuration and re-queries the device list on every key callback, so a change of any of these mid-trace is not modelled.
- The keyboard library: hooks are abstract handles. Two cases are not modelled:
  - a first-name failure other than `ValueError`, which escapes `start`;
  - a press hook installed before the release hook fails, which leaves the press hook unrecorded.
- `print` output, the unused `last_tap_time`, and the `keyboard.send` arguments beyond the direction.
- Running an action: `ActionManager.execute` and the detector's executor are a `Dispatch` effect. Exceptions raised while running one are not modelled.
- A configuration file of `src/config_manager.py` whose JSON value is not an object. `load_config` returns whatever the file holds, and on anything but an object every getter and setter, `get_target_device` inside `_should_intercept` included, raises AttributeError or TypeError. The store is modelled as an object only.
- File I/O: reading and writing the configuration files, `save_config`, and JSON parsing. A loaded file arrives as a parsed value, or as missing or unreadable.
- The shallow `DEFAULT_CONFIG.copy()`, whose sections are shared with the module constant, so later writes alias the defaults.
- JSON floating-point numbers, so a float `gesture_window_ms` is not modelled. A `True` window is kept as one millisecond, as `True / 1000.0` gives.
- The PowerShell query: its outcome is a `Probe` input, and `stderr` is not modelled. Every `platform.system()` value other than "Windows" is one case.
- `src/win_raw_input.py`, `src/ui.py`, `src/gui.py`, `main.py`, `src/main.py`, `build_exe.py`, `listener.py`, `action_executor.py` and `src/actions.py` are not part of this model.
- The engine tests set `is_running` directly and install no hooks. The scenarios start the engine at 0 ms instead, so their effects begin with the two installs.

## Findings

| source | as written | input that shows it | evidently intended | confidence | as-written member | corrected member |
|---|---|---|---|---|---|---|
| src/gesture_engine.py:55-61 | `stop` removes the hooks but neither cancels the pending debounce timer nor clears the tap count or the pressed key | start; press at 0 ms; release at 50 ms; stop; the timer due at 450 ms still dispatches the single-tap action from a stopped engine | a stopped engine dispatches nothing: stopping cancels the timer and clears the tap state | medium, not executed | EngineProperties.StopAsWrittenCounterexample | EngineProperties.NothingAfterStop |

The `Step` function of the engine uses the corrected `GestureEngine.StopEngine`.
`GestureEngine.StopAsWritten` and `EngineProperties.StopAsWrittenStillDispatches`
keep the behaviour as written.
