/**
 * Properties of the gesture engine: the state invariant every event keeps,
 * the inertness of a stopped engine and the pending timer that `stop` as
 * written leaves behind, and pass-through while the target device is away.
 */
module EngineProperties {
  import opened Wrappers
  import opened PyValue
  import opened Traces
  import ConfigStore
  import Bluetooth
  import opened GestureEngine

  // ---------------------------------------------------------------------------
  // The state invariant
  // ---------------------------------------------------------------------------

  /**
   * A stopped engine holds no hooks, no timer, no taps and no pressed key; a
   * running one holds the full set of hooks; a pending timer always has taps
   * to resolve; hook handles are ascending and below the next fresh handle.
   */
  predicate Inv(s: Engine, keys: KeyNames) {
    && (!s.running ==> s.hooks == [] && s.timer.None? && s.tapCount == 0 && !s.keyDown)
    && (s.running ==> |s.hooks| == HookCount(keys))
    && (s.timer.Some? ==> s.tapCount > 0)
    && (forall i :: 0 <= i < |s.hooks| ==> s.hooks[i] < s.nextHandle)
    && (forall i, j :: 0 <= i < j < |s.hooks| ==> s.hooks[i] < s.hooks[j])
  }

  lemma InitialInv(keys: KeyNames)
    ensures Inv(Initial, keys)
  {
  }

  lemma ResolveTapsInv(s: Engine, env: Env)
    requires Inv(s, env.keys)
    ensures Inv(ResolveTaps(s, env).next, env.keys)
  {
  }

  lemma OnTimerFireInv(s: Engine, env: Env, at: int)
    requires Inv(s, env.keys)
    ensures Inv(OnTimerFire(s, env, at).next, env.keys)
  {
    if s.timer.Some? && s.timer.value <= at {
      ResolveTapsInv(s, env);
    }
  }

  lemma StartEngineInv(s: Engine, env: Env)
    requires Inv(s, env.keys)
    ensures Inv(StartEngine(s, env).next, env.keys)
  {
    if !s.running {
      var r := InstallHooks(s.(running := true), env.keys);
      assert r.next.hooks[..|s.hooks|] == s.hooks;
    }
  }

  lemma ReEmitInv(s: Engine, env: Env, dir: Direction)
    requires Inv(s, env.keys) && s.running
    ensures Inv(ReEmit(s, env, dir).next, env.keys)
  {
  }

  lemma OnKeyDownInv(s: Engine, env: Env, at: int)
    requires Inv(s, env.keys)
    ensures Inv(OnKeyDown(s, env, at).next, env.keys)
  {
    if s.running && !ShouldIntercept(env) {
      ReEmitInv(s, env, Down);
    }
  }

  lemma OnKeyUpInv(s: Engine, env: Env, at: int)
    requires Inv(s, env.keys)
    ensures Inv(OnKeyUp(s, env, at).next, env.keys)
  {
    if s.running && !ShouldIntercept(env) {
      ReEmitInv(s, env, Up);
    }
  }

  /** Every event keeps the invariant. */
  lemma StepInv(s: Engine, env: Env, e: Event)
    requires Inv(s, env.keys)
    ensures Inv(Step(s, env, e).next, env.keys)
  {
    OnTimerFireInv(s, env, e.at);
    var t := OnTimerFire(s, env, e.at).next;
    match e
    case Start(at) => StartEngineInv(t, env);
    case Stop(at) =>
    case KeyDown(at) => OnKeyDownInv(t, env, at);
    case KeyUp(at) => OnKeyUpInv(t, env, at);
    case TimerFire(at) =>
  }

  /** Every trace from a state that satisfies the invariant, in particular from the initial state, keeps it. */
  lemma {:induction false} RunInv(s: Engine, env: Env, events: seq<Event>)
    requires Inv(s, env.keys)
    ensures Inv(RunAll(s, env, events).next, env.keys)
    decreases |events|
  {
    if |events| > 0 {
      StepInv(s, env, events[0]);
      RunInv(Step(s, env, events[0]).next, env, events[1..]);
    }
  }

  // ---------------------------------------------------------------------------
  // Start, stop and the finding about stop
  // ---------------------------------------------------------------------------

  /** Starting twice is starting once, and stopping twice is stopping once. */
  lemma StartStopIdempotent(s: Engine, env: Env)
    ensures var started := StartEngine(s, env).next;
            started.running && StartEngine(started, env) == Outcome(started, [])
    ensures var stopped := StopEngine(s).next;
            !stopped.running && StopEngine(stopped) == Outcome(stopped, [])
  {
  }

  /**
   * A stopped engine that satisfies the invariant ignores every event but a
   * start: no effect, no change of state.
   */
  lemma StoppedEngineIsInert(s: Engine, env: Env, e: Event)
    requires Inv(s, env.keys) && !s.running && !e.Start?
    ensures Step(s, env, e) == Outcome(s, [])
  {
  }

  /** No trace without a start moves a stopped engine or produces any effect. */
  lemma {:induction false} StoppedTraceIsInert(s: Engine, env: Env, events: seq<Event>)
    requires Inv(s, env.keys) && !s.running
    requires forall i :: 0 <= i < |events| ==> !events[i].Start?
    ensures RunAll(s, env, events) == Outcome(s, [])
    decreases |events|
  {
    if |events| > 0 {
      StoppedEngineIsInert(s, env, events[0]);
      StoppedTraceIsInert(s, env, events[1..]);
    }
  }

  /**
   * With the corrected stop, once the engine is stopped nothing further is
   * dispatched until it is started again, whatever was pending.
   */
  lemma NothingAfterStop(s: Engine, env: Env, at: int, later: seq<Event>)
    requires Inv(s, env.keys)
    requires forall i :: 0 <= i < |later| ==> !later[i].Start?
    ensures var stopped := Step(s, env, Stop(at));
            && !stopped.next.running
            && RunAll(stopped.next, env, later) == Outcome(stopped.next, [])
  {
    StepInv(s, env, Stop(at));
    StoppedTraceIsInert(Step(s, env, Stop(at)).next, env, later);
  }

  /**
   * `stop` as written keeps the debounce timer: a running engine with taps
   * pending is stopped, and when the timer comes due the taps still resolve
   * and the action is dispatched.
   */
  lemma StopAsWrittenStillDispatches(s: Engine, env: Env, at: int)
    requires s.running && s.tapCount > 0 && s.timer.Some? && s.timer.value <= at
    requires ConfigStore.GetGesture(env.config, TapTiers[Min(s.tapCount, 3) - 1]).Success?
    requires Truthy(ConfigStore.GetGesture(env.config, TapTiers[Min(s.tapCount, 3) - 1]).value)
    ensures var stopped := StopAsWritten(s).next;
            && !stopped.running
            && OnTimerFire(stopped, env, at).effects
               == [Dispatch(ConfigStore.GetGesture(env.config, TapTiers[Min(s.tapCount, 3) - 1]).value)]
  {
  }

  /** The configuration the engine's tests use: one action per gesture and a target device. */
  const TestConfig: ConfigStore.Config := map[
    "gestures" := Obj(map[
      "single_tap" := Str("Action_single_tap"),
      "double_tap" := Str("Action_double_tap"),
      "triple_tap" := Str("Action_triple_tap"),
      "long_press" := Str("Action_long_press")
    ]),
    "target_device" := Str("TestDevice")
  ]

  /** The device counts as connected: not on Windows, every configured device does. */
  const Connected: Env := Env(TestConfig, Bluetooth.OtherOs, Bluetooth.Crashed, MediaName)

  /** The device does not count as connected: the Windows device query failed. */
  const Disconnected: Env := Env(TestConfig, Bluetooth.Windows, Bluetooth.Crashed, MediaName)

  lemma ConnectedIntercepts()
    ensures ShouldIntercept(Connected)
    ensures !ShouldIntercept(Disconnected)
  {
    assert ConfigStore.GetTargetDevice(TestConfig) == Str("TestDevice");
  }

  /**
   * Concretely: start, tap once (pressed at 0 ms, released at 50 ms), stop at
   * 100 ms with the as-written stop, and at 450 ms the single-tap action is
   * dispatched by an engine that is no longer running.
   */
  lemma StopAsWrittenCounterexample()
    ensures var started := StartEngine(Initial, Connected).next;
            var pressed := OnKeyDown(started, Connected, 0).next;
            var released := OnKeyUp(pressed, Connected, 50).next;
            var stopped := StopAsWritten(released).next;
            && !stopped.running
            && stopped.timer == Some(450)
            && OnTimerFire(stopped, Connected, 450).effects == [Dispatch(Str("Action_single_tap"))]
  {
    ConnectedIntercepts();
    assert ConfigStore.GetGesture(TestConfig, "single_tap") == Success(Str("Action_single_tap"));
  }

  // ---------------------------------------------------------------------------
  // Pass-through while the device is away
  // ---------------------------------------------------------------------------

  /** The directions of the key events re-sent to the system, in order. */
  function Sent(effects: seq<Effect>): seq<Direction> {
    if |effects| == 0 then []
    else (if effects[0].Send? then [effects[0].direction] else []) + Sent(effects[1..])
  }

  lemma {:induction false} SentAppend(a: seq<Effect>, b: seq<Effect>)
    ensures Sent(a + b) == Sent(a) + Sent(b)
    decreases |a|
  {
    if |a| == 0 {
      assert a + b == b;
    } else {
      assert (a + b)[0] == a[0];
      assert (a + b)[1..] == a[1..] + b;
      SentAppend(a[1..], b);
    }
  }

  lemma {:induction false} SentNone(effects: seq<Effect>)
    requires forall i :: 0 <= i < |effects| ==> !effects[i].Send?
    ensures Sent(effects) == []
    decreases |effects|
  {
    if |effects| > 0 {
      SentNone(effects[1..]);
    }
  }

  /** The direction of a key event; nothing for the other events. */
  function KeyDirection(e: Event): seq<Direction> {
    match e
    case KeyDown(_) => [Down]
    case KeyUp(_) => [Up]
    case _ => []
  }

  /** The key directions of a trace's key events, in order. */
  function Directions(events: seq<Event>): seq<Direction> {
    if |events| == 0 then [] else KeyDirection(events[0]) + Directions(events[1..])
  }

  predicate NoDispatch(effects: seq<Effect>) {
    forall i :: 0 <= i < |effects| ==> !effects[i].Dispatch?
  }

  lemma NoDispatchAppend(a: seq<Effect>, b: seq<Effect>)
    requires NoDispatch(a) && NoDispatch(b)
    ensures NoDispatch(a + b)
  {
    forall i | 0 <= i < |a + b| ensures !(a + b)[i].Dispatch? {
      if i >= |a| {
        assert (a + b)[i] == b[i - |a|];
      }
    }
  }

  /** A key event or a tick of the clock: anything but starting and stopping the engine. */
  predicate NoLifecycleEvent(e: Event) {
    e.KeyDown? || e.KeyUp? || e.TimerFire?
  }

  /** Unhooking, one re-sent event and hooking again: exactly that one event is re-sent, and nothing dispatched. */
  lemma RehookShape(before: seq<Effect>, dir: Direction, after: seq<Effect>)
    requires forall i :: 0 <= i < |before| ==> before[i].Uninstall?
    requires forall i :: 0 <= i < |after| ==> after[i].Install?
    ensures NoDispatch(before + [Send(dir)] + after)
    ensures Sent(before + [Send(dir)] + after) == [dir]
  {
    NoDispatchAppend(before, [Send(dir)]);
    NoDispatchAppend(before + [Send(dir)], after);
    RehookSent(before, dir, after);
  }

  lemma RehookSent(before: seq<Effect>, dir: Direction, after: seq<Effect>)
    requires forall i :: 0 <= i < |before| ==> !before[i].Send?
    requires forall i :: 0 <= i < |after| ==> !after[i].Send?
    ensures Sent(before + [Send(dir)] + after) == [dir]
  {
    SentNone(before);
    SentNone(after);
    SentAppend(before + [Send(dir)], after);
    SentAppend(before, [Send(dir)]);
    assert Sent([Send(dir)]) == [dir] + Sent([]);
  }

  /** A re-emission re-sends exactly its one event and dispatches nothing. */
  lemma ReEmitEffects(s: Engine, env: Env, dir: Direction)
    ensures NoDispatch(ReEmit(s, env, dir).effects)
    ensures Sent(ReEmit(s, env, dir).effects) == [dir]
  {
    var re := ReEmit(s, env, dir);
    var n := |s.hooks|;
    var before, after := re.effects[..n], re.effects[n + 1..];
    assert re.effects == before + [Send(dir)] + after;
    forall i | 0 <= i < |before| ensures before[i].Uninstall? {
      assert before[i] == Uninstalls(s.hooks)[i];
    }
    forall i | 0 <= i < |after| ensures after[i].Install? {
      assert after[i] == re.effects[n + 1 + i];
    }
    RehookShape(before, dir, after);
  }

  /**
   * One key event while the device is away is re-sent as it came, and
   * nothing else happens but re-hooking; a clock tick does nothing at all.
   */
  lemma PassThroughStep(s: Engine, env: Env, e: Event)
    requires Inv(s, env.keys) && s.running && s.timer.None? && !ShouldIntercept(env) && NoLifecycleEvent(e)
    ensures var r := Step(s, env, e);
            && r.next.running && TapState(r.next) == TapState(s) && Inv(r.next, env.keys)
            && NoDispatch(r.effects)
            && Sent(r.effects) == KeyDirection(e)
  {
    StepInv(s, env, e);
    assert OnTimerFire(s, env, e.at) == Outcome(s, []);
    if !e.TimerFire? {
      var dir := if e.KeyDown? then Down else Up;
      var re := ReEmit(s, env, dir);
      ReEmitEffects(s, env, dir);
      assert [] + re.effects == re.effects;
      assert Step(s, env, e) == Outcome(re.next, re.effects);
    }
  }

  /**
   * While the target device is away, over any run of key events and clock
   * ticks every key event is re-sent to the system in order and in its own
   * direction, nothing is dispatched, and the tap state is untouched.
   */
  lemma {:induction false} DisconnectedPassesThrough(s: Engine, env: Env, events: seq<Event>)
    requires Inv(s, env.keys) && s.running && s.timer.None? && !ShouldIntercept(env)
    requires forall i :: 0 <= i < |events| ==> NoLifecycleEvent(events[i])
    ensures var r := RunAll(s, env, events);
            && r.next.running && TapState(r.next) == TapState(s)
            && NoDispatch(r.effects)
            && Sent(r.effects) == Directions(events)
    decreases |events|
  {
    if |events| > 0 {
      var first := Step(s, env, events[0]);
      PassThroughStep(s, env, events[0]);
      DisconnectedPassesThrough(first.next, env, events[1..]);
      var rest := Run(Stepper(env), first.next, events[1..]);
      assert Run(Stepper(env), s, events) == Outcome(rest.next, first.effects + rest.effects);
      SentAppend(first.effects, rest.effects);
      NoDispatchAppend(first.effects, rest.effects);
    }
  }
}
