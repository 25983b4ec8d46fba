/**
 * Gesture classification by the engine over whole traces: taps accumulate
 * inside the multi-tap window and resolve once when the clock passes the
 * deadline, taps further apart resolve one by one, long presses act at once
 * and drop pending taps; and the scenarios of the engine's test suite.
 */
module EngineScenarios {
  import opened Wrappers
  import opened PyValue
  import opened Traces
  import ConfigStore
  import opened GestureEngine
  import opened EngineProperties

  // ---------------------------------------------------------------------------
  // Composing traces
  // ---------------------------------------------------------------------------

  /** A one-event trace is one step of the engine. */
  lemma RunOne(s: Engine, env: Env, e: Event)
    ensures RunAll(s, env, [e]) == Step(s, env, e)
  {
    RunSingle(Stepper(env), s, e);
  }

  /** Two traces run one after the other. */
  lemma RunSeq(s: Engine, env: Env, xs: seq<Event>, ys: seq<Event>, mid: Engine, last: Engine, a: seq<Effect>, b: seq<Effect>)
    requires RunAll(s, env, xs) == Outcome(mid, a)
    requires RunAll(mid, env, ys) == Outcome(last, b)
    ensures RunAll(s, env, xs + ys) == Outcome(last, a + b)
  {
    RunThen(Stepper(env), s, xs, ys, mid, last, a, b);
  }

  /** Two events in a row. */
  lemma RunTwo(s: Engine, env: Env, e1: Event, e2: Event, mid: Engine, last: Engine, a: seq<Effect>, b: seq<Effect>)
    requires Step(s, env, e1) == Outcome(mid, a)
    requires Step(mid, env, e2) == Outcome(last, b)
    ensures RunAll(s, env, [e1, e2]) == Outcome(last, a + b)
  {
    RunOne(s, env, e1);
    RunOne(mid, env, e2);
    RunSeq(s, env, [e1], [e2], mid, last, a, b);
    assert [e1] + [e2] == [e1, e2];
  }

  // ---------------------------------------------------------------------------
  // Taps and long presses
  // ---------------------------------------------------------------------------

  /** One press of the key: the times it went down and came up. */
  datatype Press = Press(down: int, up: int)

  function PressEvents(presses: seq<Press>): (events: seq<Event>)
    ensures |events| == 2 * |presses|
  {
    if |presses| == 0 then []
    else [KeyDown(presses[0].down), KeyUp(presses[0].up)] + PressEvents(presses[1..])
  }

  /** A press that is released no more than 500 ms after it went down. */
  predicate ShortPress(p: Press) {
    p.down <= p.up && p.up - p.down <= LongPressThresholdMs
  }

  /** Short presses, each starting after the previous release and released within its window. */
  predicate TapsInWindow(presses: seq<Press>) {
    && (forall i :: 0 <= i < |presses| ==> ShortPress(presses[i]))
    && (forall i :: 0 < i < |presses| ==>
          presses[i - 1].up <= presses[i].down && presses[i].up < presses[i - 1].up + MultiTapWindowMs)
  }

  /** An intercepting engine with the key up and no timer due before `at`. */
  predicate Ready(s: Engine, env: Env, at: int) {
    s.running && !s.keyDown && ShouldIntercept(env) && (s.timer.None? || at < s.timer.value)
  }

  /** The tap gestures' lookups do not raise: the "gestures" entry is absent or a dict. */
  predicate GesturesReadable(c: ConfigStore.Config) {
    "gestures" !in c || c["gestures"].Obj?
  }

  /** What resolving a gesture does when its lookup succeeds: dispatch its action, if it has one. */
  function GestureEffects(c: ConfigStore.Config, gesture: string): seq<Effect> {
    match ConfigStore.GetGesture(c, gesture)
    case Success(action) => ExecuteAction(action)
    case Failure(e) => [Raised(e)]
  }

  /** What resolving `n` taps does when the lookup succeeds: the effects of tier min(n, 3); nothing for no taps. */
  function TapEffects(c: ConfigStore.Config, n: nat): seq<Effect> {
    if n == 0 then [] else GestureEffects(c, TapTiers[Min(n, 3) - 1])
  }

  /** The press of a ready engine records its time and nothing else. */
  lemma PressStep(s: Engine, env: Env, at: int)
    requires Ready(s, env, at)
    ensures Step(s, env, KeyDown(at)) == Outcome(s.(keyDown := true, keyDownAt := at), [])
  {
    assert OnTimerFire(s, env, at) == Outcome(s, []);
  }

  /** One short press: a tap counted and the timer re-armed, with no effect. */
  lemma TapStep(s: Engine, env: Env, p: Press)
    requires Ready(s, env, p.up) && ShortPress(p)
    ensures RunAll(s, env, [KeyDown(p.down), KeyUp(p.up)])
            == Outcome(s.(keyDownAt := p.down, tapCount := s.tapCount + 1, timer := Some(p.up + MultiTapWindowMs)), [])
  {
    var pressed := s.(keyDown := true, keyDownAt := p.down);
    var tapped := s.(keyDownAt := p.down, tapCount := s.tapCount + 1, timer := Some(p.up + MultiTapWindowMs));
    PressStep(s, env, p.down);
    assert Step(pressed, env, KeyUp(p.up)) == Outcome(tapped, []) by {
      assert OnTimerFire(pressed, env, p.up) == Outcome(pressed, []);
    }
    RunTwo(s, env, KeyDown(p.down), KeyUp(p.up), pressed, tapped, [], []);
  }

  /**
   * Taps released within the window of the previous one accumulate: no
   * effect, one count per tap, and the timer due a window after the last
   * release.
   */
  lemma {:induction false} TapsAccumulate(s: Engine, env: Env, presses: seq<Press>)
    requires |presses| > 0 && TapsInWindow(presses)
    requires Ready(s, env, presses[0].up)
    ensures var last := presses[|presses| - 1];
            RunAll(s, env, PressEvents(presses))
            == Outcome(s.(keyDownAt := last.down, tapCount := s.tapCount + |presses|,
                          timer := Some(last.up + MultiTapWindowMs)), [])
    decreases |presses|
  {
    var p, last := presses[0], presses[|presses| - 1];
    var s1 := s.(keyDownAt := p.down, tapCount := s.tapCount + 1, timer := Some(p.up + MultiTapWindowMs));
    var final := s.(keyDownAt := last.down, tapCount := s.tapCount + |presses|, timer := Some(last.up + MultiTapWindowMs));
    TapStep(s, env, p);
    assert PressEvents(presses) == [KeyDown(p.down), KeyUp(p.up)] + PressEvents(presses[1..]);
    if |presses| == 1 {
      assert PressEvents(presses) == [KeyDown(p.down), KeyUp(p.up)];
    } else {
      assert presses[1..][|presses| - 2] == last;
      TapsAccumulate(s1, env, presses[1..]);
      RunSeq(s, env, [KeyDown(p.down), KeyUp(p.up)], PressEvents(presses[1..]), s1, final, [], []);
    }
  }

  /** A due timer resolves the taps into their tier's action and leaves no taps and no timer. */
  lemma TimerResolves(s: Engine, env: Env, at: int, n: nat)
    requires s.tapCount == n > 0 && s.timer.Some? && s.timer.value <= at && GesturesReadable(env.config)
    ensures RunAll(s, env, [TimerFire(at)])
            == Outcome(s.(tapCount := 0, timer := None), TapEffects(env.config, n))
  {
    RunOne(s, env, TimerFire(at));
  }

  /**
   * Taps within the window, then the clock passing the last deadline,
   * dispatch the action of tier min(N, 3) exactly once, N counting the taps
   * pending before them too (nothing when the action is unset), and leave the
   * engine with no taps and no timer.
   */
  lemma {:induction false} TapsResolveOnce(s: Engine, env: Env, presses: seq<Press>, at: int)
    requires |presses| > 0 && TapsInWindow(presses)
    requires Ready(s, env, presses[0].up) && GesturesReadable(env.config)
    requires at >= presses[|presses| - 1].up + MultiTapWindowMs
    ensures RunAll(s, env, PressEvents(presses) + [TimerFire(at)])
            == Outcome(s.(keyDownAt := presses[|presses| - 1].down, tapCount := 0, timer := None),
                       TapEffects(env.config, s.tapCount + |presses|))
    decreases |presses|
  {
    var p := presses[0];
    var s1 := s.(keyDownAt := p.down, tapCount := s.tapCount + 1, timer := Some(p.up + MultiTapWindowMs));
    var done := s.(keyDownAt := presses[|presses| - 1].down, tapCount := 0, timer := None);
    var effects := TapEffects(env.config, s.tapCount + |presses|);
    TapStep(s, env, p);
    var rest := PressEvents(presses[1..]) + [TimerFire(at)];
    assert PressEvents(presses) + [TimerFire(at)] == [KeyDown(p.down), KeyUp(p.up)] + rest;
    if |presses| == 1 {
      assert rest == [TimerFire(at)];
      TimerResolves(s1, env, at, s.tapCount + 1);
    } else {
      assert presses[1..][|presses| - 2] == presses[|presses| - 1];
      TapsResolveOnce(s1, env, presses[1..], at);
    }
    RunSeq(s, env, [KeyDown(p.down), KeyUp(p.up)], rest, s1, done, [], effects);
  }

  /**
   * A press held strictly longer than 500 ms dispatches the long-press action
   * at once, and drops any taps pending before it together with their timer.
   */
  lemma LongPressCancelsTaps(s: Engine, env: Env, p: Press)
    requires Ready(s, env, p.up)
    requires p.up - p.down > LongPressThresholdMs
    requires GesturesReadable(env.config)
    ensures RunAll(s, env, [KeyDown(p.down), KeyUp(p.up)])
            == Outcome(s.(keyDownAt := p.down, tapCount := 0, timer := None),
                       GestureEffects(env.config, "long_press"))
  {
    var pressed := s.(keyDown := true, keyDownAt := p.down);
    var done := s.(keyDownAt := p.down, tapCount := 0, timer := None);
    var effects := GestureEffects(env.config, "long_press");
    PressStep(s, env, p.down);
    assert Step(pressed, env, KeyUp(p.up)) == Outcome(done, effects) by {
      assert OnTimerFire(pressed, env, p.up) == Outcome(pressed, []);
    }
    RunTwo(s, env, KeyDown(p.down), KeyUp(p.up), pressed, done, [], effects);
    assert [] + effects == effects;
  }

  /**
   * Two taps further apart than the window are two single taps: the first
   * resolves when the second key press arrives, the second when the clock
   * passes its own deadline.
   */
  lemma SeparateTaps(s: Engine, env: Env, p: Press, q: Press, at: int)
    requires Ready(s, env, p.up) && s.tapCount == 0 && s.timer.None? && GesturesReadable(env.config)
    requires ShortPress(p) && ShortPress(q) && q.down >= p.up + MultiTapWindowMs
    requires at >= q.up + MultiTapWindowMs
    ensures var single := GestureEffects(env.config, "single_tap");
            RunAll(s, env, PressEvents([p, q]) + [TimerFire(at)]).effects == single + single
  {
    var single := GestureEffects(env.config, "single_tap");
    var m := s.(keyDownAt := p.down, tapCount := 1, timer := Some(p.up + MultiTapWindowMs));
    var pressed := s.(keyDown := true, keyDownAt := q.down);
    var s2 := s.(keyDownAt := q.down, tapCount := 1, timer := Some(q.up + MultiTapWindowMs));
    var done := s.(keyDownAt := q.down);
    // the first tap
    TapStep(s, env, p);
    // the second press finds the first tap's timer due, resolves it, and is recorded
    assert Step(m, env, KeyDown(q.down)) == Outcome(pressed, single) by {
      assert OnTimerFire(m, env, q.down) == Outcome(s.(keyDownAt := p.down), single);
    }
    assert Step(pressed, env, KeyUp(q.up)) == Outcome(s2, []) by {
      assert OnTimerFire(pressed, env, q.up) == Outcome(pressed, []);
    }
    RunTwo(m, env, KeyDown(q.down), KeyUp(q.up), pressed, s2, single, []);
    // the clock resolves the second tap
    TimerResolves(s2, env, at, 1);
    RunSeq(m, env, [KeyDown(q.down), KeyUp(q.up)], [TimerFire(at)], s2, done, single + [], single);
    RunSeq(s, env, [KeyDown(p.down), KeyUp(p.up)], [KeyDown(q.down), KeyUp(q.up)] + [TimerFire(at)],
           m, done, [], single + [] + single);
    assert PressEvents([q]) == [KeyDown(q.down), KeyUp(q.up)] + PressEvents([]);
    assert PressEvents([p, q]) == [KeyDown(p.down), KeyUp(p.up)] + PressEvents([q]);
    assert PressEvents([p, q]) + [TimerFire(at)]
           == [KeyDown(p.down), KeyUp(p.up)] + ([KeyDown(q.down), KeyUp(q.up)] + [TimerFire(at)]);
    assert [] + (single + [] + single) == single + single;
  }

  /** A press of exactly 500 ms is still a tap; one of 501 ms is a long press. */
  lemma ThresholdIsStrict(s: Engine, env: Env)
    requires s.running && s.keyDown && ShouldIntercept(env) && GesturesReadable(env.config)
    ensures OnKeyUp(s, env, s.keyDownAt + 500).next.tapCount == s.tapCount + 1
    ensures OnKeyUp(s, env, s.keyDownAt + 501).next.tapCount == 0
  {
  }

  // ---------------------------------------------------------------------------
  // The test suite's scenarios
  // ---------------------------------------------------------------------------

  /** The engine just started where the media key name is accepted: running, two hooks, nothing pending. */
  const Started: Engine := Initial.(running := true, hooks := [0, 1], nextHandle := 2)

  const MediaInstalls: seq<Effect> := [Install(0, MediaKeyName, OnPress), Install(1, MediaKeyName, OnRelease)]

  lemma StartedInv()
    ensures Inv(Started, MediaName)
  {
    assert Started.hooks == [0, 1];
  }

  /** Starting at 0 ms installs the two hooks; what follows runs from the started engine. */
  lemma StartedThen(env: Env, events: seq<Event>)
    requires env.keys == MediaName
    ensures var rest := RunAll(Started, env, events);
            RunAll(Initial, env, [Start(0)] + events) == Outcome(rest.next, MediaInstalls + rest.effects)
  {
    var rest := RunAll(Started, env, events);
    RunOne(Initial, env, Start(0));
    RunSeq(Initial, env, [Start(0)], events, Started, rest.next, MediaInstalls, rest.effects);
  }

  /**
   * A freshly started engine with the target connected: N taps within the
   * window and then the clock passing the deadline install the two hooks and
   * dispatch the action of tier min(N, 3), and nothing else.
   */
  lemma StartThenTaps(env: Env, presses: seq<Press>, at: int)
    requires env.keys == MediaName && ShouldIntercept(env) && GesturesReadable(env.config)
    requires |presses| > 0 && TapsInWindow(presses)
    requires at >= presses[|presses| - 1].up + MultiTapWindowMs
    ensures RunAll(Initial, env, [Start(0)] + (PressEvents(presses) + [TimerFire(at)])).effects
            == MediaInstalls + TapEffects(env.config, |presses|)
  {
    TapsResolveOnce(Started, env, presses, at);
    StartedThen(env, PressEvents(presses) + [TimerFire(at)]);
  }

  /** The configuration the engine's tests use has a readable gestures section naming an action per tier. */
  lemma TestActions()
    ensures GesturesReadable(TestConfig)
    ensures TapEffects(TestConfig, 1) == [Dispatch(Str("Action_single_tap"))]
    ensures TapEffects(TestConfig, 2) == [Dispatch(Str("Action_double_tap"))]
    ensures TapEffects(TestConfig, 3) == [Dispatch(Str("Action_triple_tap"))]
  {
    var gestures := TestConfig["gestures"].fields;
    assert ConfigStore.GetGesture(TestConfig, "single_tap") == Success(gestures["single_tap"]);
    assert ConfigStore.GetGesture(TestConfig, "double_tap") == Success(gestures["double_tap"]);
    assert ConfigStore.GetGesture(TestConfig, "triple_tap") == Success(gestures["triple_tap"]);
  }

  /** A tapped scenario on the connected test device: start at 0 ms, the presses, then the clock at `at`. */
  lemma TestScenario(presses: seq<Press>, at: int)
    requires |presses| > 0 && TapsInWindow(presses)
    requires at >= presses[|presses| - 1].up + MultiTapWindowMs
    ensures RunAll(Initial, Connected, [Start(0)] + (PressEvents(presses) + [TimerFire(at)])).effects
            == MediaInstalls + TapEffects(TestConfig, |presses|)
  {
    ConnectedIntercepts();
    TestActions();
    StartThenTaps(Connected, presses, at);
  }

  /** One tap, then half a second of quiet, runs the single-tap action once. */
  lemma TestSingleTap()
    ensures RunAll(Initial, Connected, [Start(0), KeyDown(0), KeyUp(50), TimerFire(550)]).effects
            == MediaInstalls + [Dispatch(Str("Action_single_tap"))]
  {
    var presses := [Press(0, 50)];
    assert [Start(0)] + (PressEvents(presses) + [TimerFire(550)]) == [Start(0), KeyDown(0), KeyUp(50), TimerFire(550)] by {
      assert PressEvents(presses) == [KeyDown(0), KeyUp(50)] + PressEvents([]);
    }
    TestScenario(presses, 550);
    TestActions();
  }

  lemma DoubleTapEvents(presses: seq<Press>)
    requires presses == [Press(0, 50), Press(150, 200)]
    ensures TapsInWindow(presses)
    ensures [Start(0)] + (PressEvents(presses) + [TimerFire(700)])
            == [Start(0), KeyDown(0), KeyUp(50), KeyDown(150), KeyUp(200), TimerFire(700)]
  {
    assert PressEvents(presses[1..]) == [KeyDown(150), KeyUp(200)] + PressEvents([]);
  }

  /** Two taps 100 ms apart run the double-tap action once. */
  lemma TestDoubleTap()
    ensures RunAll(Initial, Connected, [Start(0), KeyDown(0), KeyUp(50), KeyDown(150), KeyUp(200), TimerFire(700)]).effects
            == MediaInstalls + [Dispatch(Str("Action_double_tap"))]
  {
    var presses := [Press(0, 50), Press(150, 200)];
    DoubleTapEvents(presses);
    TestScenario(presses, 700);
    TestActions();
  }

  lemma TripleTapEvents(presses: seq<Press>)
    requires presses == [Press(0, 50), Press(150, 200), Press(300, 350)]
    ensures TapsInWindow(presses)
    ensures [Start(0)] + (PressEvents(presses) + [TimerFire(850)])
            == [Start(0), KeyDown(0), KeyUp(50), KeyDown(150), KeyUp(200), KeyDown(300), KeyUp(350), TimerFire(850)]
  {
    assert PressEvents(presses[2..]) == [KeyDown(300), KeyUp(350)] + PressEvents([]);
    assert PressEvents(presses[1..]) == [KeyDown(150), KeyUp(200)] + PressEvents(presses[2..]);
  }

  /** Three taps 100 ms apart run the triple-tap action once. */
  lemma TestTripleTap()
    ensures RunAll(Initial, Connected, [Start(0), KeyDown(0), KeyUp(50), KeyDown(150), KeyUp(200),
                                        KeyDown(300), KeyUp(350), TimerFire(850)]).effects
            == MediaInstalls + [Dispatch(Str("Action_triple_tap"))]
  {
    var presses := [Press(0, 50), Press(150, 200), Press(300, 350)];
    TripleTapEvents(presses);
    TestScenario(presses, 850);
    TestActions();
  }

  /**
   * A freshly started engine whose target is away installs its two hooks and
   * then re-sends every key event in order, dispatching nothing.
   */
  lemma StartThenPassThrough(env: Env, events: seq<Event>)
    requires env.keys == MediaName && !ShouldIntercept(env)
    requires forall i :: 0 <= i < |events| ==> NoLifecycleEvent(events[i])
    ensures var r := RunAll(Initial, env, [Start(0)] + events);
            NoDispatch(r.effects) && Sent(r.effects) == Directions(events)
  {
    StartedInv();
    DisconnectedPassesThrough(Started, env, events);
    StartedThen(env, events);
    AfterInstalls(RunAll(Started, env, events).effects, events);
  }

  lemma AfterInstalls(effects: seq<Effect>, events: seq<Event>)
    requires NoDispatch(effects) && Sent(effects) == Directions(events)
    ensures NoDispatch(MediaInstalls + effects) && Sent(MediaInstalls + effects) == Directions(events)
  {
    SentNone(MediaInstalls);
    SentAppend(MediaInstalls, effects);
    NoDispatchAppend(MediaInstalls, effects);
  }

  /** A tap on a started engine whose target is away is re-sent, down then up, and no action runs. */
  lemma AwayTap(env: Env)
    requires env.keys == MediaName && !ShouldIntercept(env)
    ensures var r := RunAll(Initial, env, [Start(0), KeyDown(0), KeyUp(50), TimerFire(550)]);
            NoDispatch(r.effects) && Sent(r.effects) == [Down, Up]
  {
    var keys := [KeyDown(0), KeyUp(50), TimerFire(550)];
    assert Directions(keys) == [Down, Up] by {
      assert Directions(keys[2..]) == [] + Directions([]);
      assert Directions(keys[1..]) == [Up] + Directions(keys[2..]);
    }
    StartThenPassThrough(env, keys);
    assert [Start(0)] + keys == [Start(0), KeyDown(0), KeyUp(50), TimerFire(550)];
  }

  /** With the device not connected a tap is re-sent, down then up, and no action runs. */
  lemma TestDeviceNotConnected()
    ensures var r := RunAll(Initial, Disconnected, [Start(0), KeyDown(0), KeyUp(50), TimerFire(550)]);
            NoDispatch(r.effects) && Sent(r.effects) == [Down, Up]
  {
    ConnectedIntercepts();
    AwayTap(Disconnected);
  }
}
