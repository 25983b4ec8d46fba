/**
 * The media-key gesture engine of src/gesture_engine.py as a discrete-event
 * machine. The engine hooks the play/pause key in suppressing mode, times
 * each press, and classifies releases as long presses (held over 500 ms) or
 * taps; taps inside a 400 ms window accumulate into single, double or triple
 * taps, resolved when the debounce timer fires. When the target device is
 * not configured or not connected, each key event is passed through by
 * unhooking, re-sending the event and hooking again.
 *
 * Time is integer milliseconds carried by each event. The debounce timer is
 * the deadline of the one pending timer; it fires on its own, so before any
 * event at time `at` a timer whose deadline is `at` or earlier fires first.
 * The keyboard hook library, the action manager and the connectivity query
 * become effects and environment parameters.
 */
module GestureEngine {
  import opened Wrappers
  import opened PyValue
  import opened Traces
  import ConfigStore
  import Bluetooth
  import Text

  /** A release more than this many milliseconds after the press is a long press. */
  const LongPressThresholdMs: int := 500

  /** A tap resolves when no further tap is released within this many milliseconds. */
  const MultiTapWindowMs: int := 400

  /** The key name hooked first, and the one tried when the library does not know it. */
  const MediaKeyName: string := "play/pause media"
  const FallbackKeyName: string := "play/pause"

  datatype Direction = Down | Up

  /** The two hooks the engine installs: one for presses, one for releases. */
  datatype HookKind = OnPress | OnRelease

  /** Which name of the play/pause key the hook library accepts on this system. */
  datatype KeyNames = MediaName | FallbackName | NoName

  /** What the engine asks of the outside world, in order. */
  datatype Effect =
    | Install(handle: nat, key: string, kind: HookKind) // a suppressing hook, known by its handle
    | Uninstall(handle: nat)
    | Send(direction: Direction)                       // the key event re-sent to the system
    | Dispatch(action: Value)                          // the action manager runs the action
    | Raised(error: PyError)                           // an exception escapes the callback

  /**
   * What the engine consults: the configuration store, and for the
   * connectivity check the operating system and the outcome of the device
   * query; plus which key name the hook library accepts.
   */
  datatype Env = Env(config: ConfigStore.Config, os: Bluetooth.Os, probe: Bluetooth.Probe, keys: KeyNames)

  /**
   * The engine's state. `timer` is the deadline of the pending debounce timer,
   * if one is pending; `hooks` are the handles of the installed hooks;
   * `nextHandle` supplies fresh handles.
   */
  datatype Engine = Engine(
    running: bool,
    keyDown: bool,
    keyDownAt: int,
    tapCount: nat,
    timer: Option<int>,
    hooks: seq<nat>,
    nextHandle: nat)

  datatype Event = Start(at: int) | Stop(at: int) | KeyDown(at: int) | KeyUp(at: int) | TimerFire(at: int)

  type EngineOutcome = Outcome<Engine, Effect>

  /** The state the constructor creates. */
  const Initial: Engine := Engine(false, false, 0, 0, None, [], 0)

  // ---------------------------------------------------------------------------
  // Hooks
  // ---------------------------------------------------------------------------

  /** The key name the hook library accepts, if any. */
  function HookKeyName(keys: KeyNames): Option<string> {
    match keys
    case MediaName => Some(MediaKeyName)
    case FallbackName => Some(FallbackKeyName)
    case NoName => None
  }

  /** The kind of the `i`-th hook of an installation: the press hook first, then the release hook. */
  function HookOrder(i: nat): HookKind {
    if i == 0 then OnPress else OnRelease
  }

  /** How many hooks an installation adds: the press/release pair, or none when no key name is accepted. */
  function HookCount(keys: KeyNames): nat {
    if keys == NoName then 0 else 2
  }

  /**
   * Hook the press and the release of the play/pause key under the first name
   * the library accepts. When neither name is accepted the failure is only
   * printed and nothing is hooked.
   */
  function InstallHooks(s: Engine, keys: KeyNames): (r: EngineOutcome)
    ensures r.next == s.(hooks := r.next.hooks, nextHandle := r.next.nextHandle)
    ensures |r.next.hooks| == |s.hooks| + HookCount(keys)
    ensures r.next.hooks[..|s.hooks|] == s.hooks
    ensures |r.effects| == HookCount(keys)
    ensures r.effects == Installs(s.nextHandle, keys)
    ensures forall i :: 0 <= i < |r.effects| ==> r.effects[i].handle == r.next.hooks[|s.hooks| + i]
    ensures forall i :: |s.hooks| <= i < |r.next.hooks| ==> s.nextHandle <= r.next.hooks[i] < r.next.nextHandle
    ensures forall i, j :: |s.hooks| <= i < j < |r.next.hooks| ==> r.next.hooks[i] < r.next.hooks[j]
    ensures s.nextHandle <= r.next.nextHandle
  {
    match HookKeyName(keys)
    case None => Outcome(s, [])
    case Some(name) =>
      var h := s.nextHandle;
      Outcome(s.(hooks := s.hooks + [h, h + 1], nextHandle := h + 2),
              [Install(h, name, OnPress), Install(h + 1, name, OnRelease)])
  }

  /**
   * The hooks an installation adds, with handles counted up from `first`:
   * the press hook, then the release hook, both under the key name the
   * library accepts; none when it accepts neither name.
   */
  function Installs(first: nat, keys: KeyNames): (effects: seq<Effect>)
    ensures |effects| == HookCount(keys)
    ensures forall i :: 0 <= i < |effects| ==> effects[i] == Install(first + i, HookKeyName(keys).value, HookOrder(i))
  {
    match HookKeyName(keys)
    case None => []
    case Some(name) => [Install(first, name, OnPress), Install(first + 1, name, OnRelease)]
  }

  /** Unhook each handle, in order. */
  function Uninstalls(hooks: seq<nat>): (effects: seq<Effect>)
    ensures |effects| == |hooks|
    ensures forall i :: 0 <= i < |hooks| ==> effects[i] == Uninstall(hooks[i])
  {
    seq(|hooks|, i requires 0 <= i < |hooks| => Uninstall(hooks[i]))
  }

  // ---------------------------------------------------------------------------
  // Lifecycle
  // ---------------------------------------------------------------------------

  /**
   * `start`: nothing when already running. Otherwise the engine is marked
   * running before the hooks are installed, so it stays running even when no
   * key name is accepted and no hook is installed.
   */
  function StartEngine(s: Engine, env: Env): (r: EngineOutcome)
    ensures s.running ==> r == Outcome(s, [])
    ensures !s.running ==> r.next.running
    ensures !s.running ==> |r.next.hooks| == |s.hooks| + HookCount(env.keys) && |r.effects| == HookCount(env.keys)
    ensures !s.running ==> forall i :: 0 <= i < |r.effects| ==> r.effects[i].Install?
    ensures !s.running ==> r.effects == Installs(s.nextHandle, env.keys)
    ensures !s.running ==> r.next.hooks[..|s.hooks|] == s.hooks
    ensures !s.running ==> forall i :: 0 <= i < |r.effects| ==> r.effects[i].handle == r.next.hooks[|s.hooks| + i]
    ensures r.next == s.(running := r.next.running, hooks := r.next.hooks, nextHandle := r.next.nextHandle)
    ensures TapState(r.next) == TapState(s)
  {
    if s.running then Outcome(s, []) else InstallHooks(s.(running := true), env.keys)
  }

  /**
   * `stop` as the source writes it: nothing when already stopped; otherwise
   * the engine is marked stopped and every hook removed. The debounce timer
   * is left pending and the tap count kept.
   */
  function StopAsWritten(s: Engine): (r: EngineOutcome)
    ensures !r.next.running
    ensures !s.running ==> r == Outcome(s, [])
    ensures s.running ==> r.next.hooks == [] && r.effects == Uninstalls(s.hooks)
    ensures TapState(r.next) == TapState(s)
  {
    if !s.running then Outcome(s, [])
    else Outcome(s.(running := false, hooks := []), Uninstalls(s.hooks))
  }

  /**
   * `stop` as evidently intended: in addition to removing the hooks, the
   * pending debounce timer is cancelled and the press and tap state is
   * cleared, so nothing is dispatched after the engine has stopped.
   */
  function StopEngine(s: Engine): (r: EngineOutcome)
    ensures !r.next.running
    ensures !s.running ==> r == Outcome(s, [])
    ensures s.running ==> r.next.hooks == [] && r.effects == Uninstalls(s.hooks)
    ensures s.running ==> r.next.timer.None? && r.next.tapCount == 0 && !r.next.keyDown
    ensures r.next.nextHandle == s.nextHandle
  {
    if !s.running then Outcome(s, [])
    else Outcome(s.(running := false, hooks := [], keyDown := false, tapCount := 0, timer := None),
                 Uninstalls(s.hooks))
  }

  // ---------------------------------------------------------------------------
  // Interception and pass-through
  // ---------------------------------------------------------------------------

  /**
   * `_should_intercept`: only with a target device configured, and only
   * while it is connected. With no target device the engine passes every
   * event through.
   */
  function ShouldIntercept(env: Env): (r: bool)
    ensures !Truthy(ConfigStore.GetTargetDevice(env.config)) ==> !r
    ensures Truthy(ConfigStore.GetTargetDevice(env.config)) && env.os == Bluetooth.OtherOs ==> r
    ensures env.os == Bluetooth.Windows ==>
              (r <==> var t := ConfigStore.GetTargetDevice(env.config);
                      t.Str? && t.s != "" && env.probe.Ran? && env.probe.returnCode == 0
                      && t.s in Bluetooth.ListedNames(Text.Split(env.probe.stdout, '\n')))
  {
    var target := ConfigStore.GetTargetDevice(env.config);
    Truthy(target) && Bluetooth.IsDeviceConnected(env.os, target, env.probe)
  }

  /** The press and tap state: everything a pass-through must leave alone. */
  function TapState(s: Engine): (bool, int, nat, Option<int>) {
    (s.keyDown, s.keyDownAt, s.tapCount, s.timer)
  }

  /**
   * `_re_emit`: unhook every hook, re-send the event in its own direction,
   * and hook the key again. Only the hooks change, and their number is
   * restored whenever a key name is accepted.
   */
  function ReEmit(s: Engine, env: Env, dir: Direction): (r: EngineOutcome)
    ensures r.next.running == s.running && TapState(r.next) == TapState(s)
    ensures |r.next.hooks| == HookCount(env.keys)
    ensures |r.effects| == |s.hooks| + 1 + HookCount(env.keys)
    ensures r.effects[..|s.hooks|] == Uninstalls(s.hooks)
    ensures r.effects[|s.hooks|] == Send(dir)
    ensures r.effects[|s.hooks| + 1..] == Installs(s.nextHandle, env.keys)
    ensures forall i :: 0 <= i < HookCount(env.keys) ==> r.effects[|s.hooks| + 1 + i].handle == r.next.hooks[i]
    ensures forall i :: 0 <= i < |r.next.hooks| ==> s.nextHandle <= r.next.hooks[i] < r.next.nextHandle
    ensures forall i, j :: 0 <= i < j < |r.next.hooks| ==> r.next.hooks[i] < r.next.hooks[j]
  {
    var reinstalled := InstallHooks(s.(hooks := []), env.keys);
    Outcome(reinstalled.next, Uninstalls(s.hooks) + [Send(dir)] + reinstalled.effects)
  }

  // ---------------------------------------------------------------------------
  // Gesture resolution
  // ---------------------------------------------------------------------------

  /** `_execute_action`: an empty or missing action dispatches nothing. */
  function ExecuteAction(action: Value): (effects: seq<Effect>)
    ensures effects != [] <==> Truthy(action)
    ensures effects != [] ==> effects == [Dispatch(action)]
  {
    if Truthy(action) then [Dispatch(action)] else []
  }

  /** The gesture a resolved tap count names: none for zero, then single, double, and triple for three or more. */
  function TapGesture(count: nat): Option<string> {
    if count == 1 then Some("single_tap")
    else if count == 2 then Some("double_tap")
    else if count >= 3 then Some("triple_tap")
    else None
  }

  /** The tap gestures in order; a count resolves to tier min(count, 3). */
  const TapTiers: seq<string> := ["single_tap", "double_tap", "triple_tap"]

  /** The classification caps the vocabulary at three tiers: count n names tier min(n, 3). */
  lemma TapGestureIsCappedCount(count: nat)
    ensures count == 0 ==> TapGesture(count) == None
    ensures count > 0 ==> TapGesture(count) == Some(TapTiers[Min(count, 3) - 1])
  {
  }

  /**
   * `_handle_long_press`: dispatch the long-press action, then drop the
   * accumulated taps and cancel the pending timer. If the lookup raises, the
   * exception leaves the taps and the timer as they were.
   */
  function HandleLongPress(s: Engine, env: Env): (r: EngineOutcome)
    ensures var lookup := ConfigStore.GetGesture(env.config, "long_press");
            && (lookup.Success? ==> r == Outcome(s.(tapCount := 0, timer := None), ExecuteAction(lookup.value)))
            && (lookup.Failure? ==> r == Outcome(s, [Raised(lookup.error)]))
  {
    match ConfigStore.GetGesture(env.config, "long_press")
    case Failure(e) => Outcome(s, [Raised(e)])
    case Success(action) => Outcome(s.(tapCount := 0, timer := None), ExecuteAction(action))
  }

  /** `_handle_tap`: one more tap, and the pending timer replaced by one due a window after this release. */
  function HandleTap(s: Engine, at: int): (r: EngineOutcome)
    ensures r.next.tapCount == s.tapCount + 1
    ensures r.next.timer == Some(at + MultiTapWindowMs)
    ensures r.next == s.(tapCount := r.next.tapCount, timer := r.next.timer)
    ensures r.effects == []
  {
    Outcome(s.(tapCount := s.tapCount + 1, timer := Some(at + MultiTapWindowMs)), [])
  }

  /**
   * `_resolve_taps`, run when the timer fires: the count names the gesture,
   * whose action is dispatched, and the count returns to zero. A lookup that
   * raises leaves the count as it was; the fired timer is gone either way.
   */
  function ResolveTaps(s: Engine, env: Env): (r: EngineOutcome)
    ensures r.next.timer.None?
    ensures r.next == s.(timer := None, tapCount := r.next.tapCount)
    ensures s.tapCount == 0 ==> r.next.tapCount == 0 && r.effects == []
    ensures s.tapCount > 0 ==>
              var lookup := ConfigStore.GetGesture(env.config, TapTiers[Min(s.tapCount, 3) - 1]);
              && (lookup.Success? ==> r.next.tapCount == 0 && r.effects == ExecuteAction(lookup.value))
              && (lookup.Failure? ==> r.next.tapCount == s.tapCount && r.effects == [Raised(lookup.error)])
  {
    TapGestureIsCappedCount(s.tapCount);
    var fired := s.(timer := None);
    match TapGesture(s.tapCount)
    case None => Outcome(fired.(tapCount := 0), [])
    case Some(gesture) =>
      match ConfigStore.GetGesture(env.config, gesture)
      case Failure(e) => Outcome(fired, [Raised(e)])
      case Success(action) => Outcome(fired.(tapCount := 0), ExecuteAction(action))
  }

  /** The clock reaching `at`: the pending timer fires if its deadline has come; otherwise nothing happens. */
  function OnTimerFire(s: Engine, env: Env, at: int): (r: EngineOutcome)
    ensures s.timer.Some? && s.timer.value <= at ==> r == ResolveTaps(s, env)
    ensures !(s.timer.Some? && s.timer.value <= at) ==> r == Outcome(s, [])
  {
    if s.timer.Some? && s.timer.value <= at then ResolveTaps(s, env) else Outcome(s, [])
  }

  // ---------------------------------------------------------------------------
  // Key callbacks
  // ---------------------------------------------------------------------------

  /**
   * `_on_key_down`: ignored while stopped; passed through when not
   * intercepting; otherwise the press time is recorded, unless the key is
   * already down, in which case the original press time is kept.
   */
  function OnKeyDown(s: Engine, env: Env, at: int): (r: EngineOutcome)
    ensures !s.running ==> r == Outcome(s, [])
    ensures s.running && !ShouldIntercept(env) ==> r == ReEmit(s, env, Down)
    ensures s.running && ShouldIntercept(env) ==>
              && r.effects == []
              && r.next == s.(keyDown := true, keyDownAt := if s.keyDown then s.keyDownAt else at)
  {
    if !s.running then Outcome(s, [])
    else if !ShouldIntercept(env) then ReEmit(s, env, Down)
    else if !s.keyDown then Outcome(s.(keyDown := true, keyDownAt := at), [])
    else Outcome(s, [])
  }

  /**
   * `_on_key_up`: ignored while stopped and when the key is not down;
   * passed through when not intercepting; otherwise the press ends and is a
   * long press if it lasted strictly more than 500 ms, a tap if not.
   */
  function OnKeyUp(s: Engine, env: Env, at: int): (r: EngineOutcome)
    ensures !s.running ==> r == Outcome(s, [])
    ensures s.running && !ShouldIntercept(env) ==> r == ReEmit(s, env, Up)
    ensures s.running && ShouldIntercept(env) && !s.keyDown ==> r == Outcome(s, [])
    ensures s.running && ShouldIntercept(env) && s.keyDown && at - s.keyDownAt > LongPressThresholdMs ==>
              r == HandleLongPress(s.(keyDown := false), env)
    ensures s.running && ShouldIntercept(env) && s.keyDown && at - s.keyDownAt <= LongPressThresholdMs ==>
              r == HandleTap(s.(keyDown := false), at)
  {
    if !s.running then Outcome(s, [])
    else if !ShouldIntercept(env) then ReEmit(s, env, Up)
    else if !s.keyDown then Outcome(s, [])
    else
      var released := s.(keyDown := false);
      if at - s.keyDownAt > LongPressThresholdMs then HandleLongPress(released, env)
      else HandleTap(released, at)
  }

  // ---------------------------------------------------------------------------
  // The step function
  // ---------------------------------------------------------------------------

  /** The effects of the timer's firing followed by those of the event handled after it. */
  function Then(fired: EngineOutcome, handled: EngineOutcome): EngineOutcome {
    Outcome(handled.next, fired.effects + handled.effects)
  }

  /** The pending timer's deadline has come by `at`. */
  predicate Due(s: Engine, at: int) {
    s.timer.Some? && s.timer.value <= at
  }

  /** The callback an event runs once the clock has reached its time. `Stop` is the corrected stop. */
  function Callback(s: Engine, env: Env, e: Event): EngineOutcome {
    match e
    case Start(_) => StartEngine(s, env)
    case Stop(_) => StopEngine(s)
    case KeyDown(at) => OnKeyDown(s, env, at)
    case KeyUp(at) => OnKeyUp(s, env, at)
    case TimerFire(_) => Outcome(s, [])
  }

  /**
   * One event. The timer runs on its own thread, so a timer whose deadline
   * has come by the event's time fires first and resolves the taps; the
   * event's callback then runs on the state that leaves. `Stop` is the
   * corrected stop, after which no timer and no taps remain.
   */
  function Step(s: Engine, env: Env, e: Event): (r: EngineOutcome)
    ensures !Due(s, e.at) ==> r == Callback(s, env, e)
    ensures Due(s, e.at) && !e.TimerFire? ==> r == Then(ResolveTaps(s, env), Callback(ResolveTaps(s, env).next, env, e))
    ensures Due(s, e.at) && e.TimerFire? ==> r == ResolveTaps(s, env)
    ensures e.Stop? ==> !r.next.running
    ensures e.Stop? && s.running ==> r.next.hooks == [] && r.next.timer.None? && r.next.tapCount == 0 && !r.next.keyDown
  {
    var fired := OnTimerFire(s, env, e.at);
    match e
    case Start(_) => Then(fired, StartEngine(fired.next, env))
    case Stop(_) => Then(fired, StopEngine(fired.next))
    case KeyDown(at) => Then(fired, OnKeyDown(fired.next, env, at))
    case KeyUp(at) => Then(fired, OnKeyUp(fired.next, env, at))
    case TimerFire(_) => fired
  }

  /** The engine's step for a fixed environment. */
  function Stepper(env: Env): (Engine, Event) -> EngineOutcome {
    (s, e) => Step(s, env, e)
  }

  /** The events in order, with their effects concatenated. */
  function RunAll(s: Engine, env: Env, events: seq<Event>): EngineOutcome {
    Run(Stepper(env), s, events)
  }
}
