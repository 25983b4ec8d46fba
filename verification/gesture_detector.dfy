/**
 * The older tap counter of gesture_detector.py. Every play/pause press adds a
 * tap and restarts one debounce timer; when the timer fires the taps are
 * resolved to a single, double or triple tap, whose mapped action is
 * dispatched. The next and previous track keys dispatch at once. Threads and
 * `threading.Timer` become a pending deadline in milliseconds plus an
 * explicit timer event.
 */
module GestureDetector {
  import opened Wrappers
  import opened PyValue
  import LegacyConfig
  import opened Traces

  /** The debounce window when the configuration gives none. */
  const DefaultWindowMs: int := 400

  /** The detector's state: taps since the last resolution and the pending timer's deadline, if any. */
  datatype Detector = Detector(tapCount: nat, timer: Option<int>)

  /** What the detector asks of the outside world. */
  datatype Effect =
    | Dispatch(action: Value) // the action executor runs the named action
    | Raised(error: PyError)  // an exception escapes the callback

  datatype Event = PlayPause(at: int) | TimerFire(at: int) | NextTrack(at: int) | PreviousTrack(at: int)

  type DetectorOutcome = Outcome<Detector, Effect>

  const Initial: Detector := Detector(0, None)

  /** The mapping consulted for a resolved count: none for zero taps, then single, double, and triple for three or more. */
  function TierMapping(count: nat): Option<string> {
    if count == 1 then Some("play_pause_single")
    else if count == 2 then Some("play_pause_double")
    else if count >= 3 then Some("play_pause_triple")
    else None
  }

  /** The tier names in order; a count resolves to tier min(count, 3). */
  const Tiers: seq<string> := ["play_pause_single", "play_pause_double", "play_pause_triple"]

  /** The resolution caps the vocabulary at three tiers: count n selects tier min(n, 3). */
  lemma TierIsCappedCount(count: nat)
    ensures count == 0 ==> TierMapping(count) == None
    ensures count > 0 ==> TierMapping(count) == Some(Tiers[Min(count, 3) - 1])
  {
  }

  /**
   * `get_setting("gesture_window_ms") or 400`, turned into the timer's delay
   * in milliseconds. A falsy or missing setting gives 400; `True` counts as
   * one millisecond, as `True / 1000.0` is a thousandth of a second; a string,
   * list or dict cannot be divided and raises a TypeError.
   */
  function WindowMs(c: LegacyConfig.Config): (r: Result<int, PyError>)
    ensures var setting := LegacyConfig.GetSetting(c, "gesture_window_ms");
            && (setting.Failure? ==> r == Failure(setting.error))
            && (setting.Success? && !Truthy(setting.value) ==> r == Success(DefaultWindowMs))
            && (setting.Success? && setting.value.Int? && setting.value.i != 0 ==> r == Success(setting.value.i))
            && (setting == Success(Bool(true)) ==> r == Success(1))
            && (setting.Success? && (setting.value.Str? || setting.value.Arr? || setting.value.Obj?) && Truthy(setting.value)
                ==> r == Failure(TypeError))
  {
    match LegacyConfig.GetSetting(c, "gesture_window_ms")
    case Failure(e) => Failure(e)
    case Success(v) =>
      var window := if Truthy(v) then v else Int(DefaultWindowMs);
      match window
      case Int(ms) => Success(ms)
      case Bool(_) => Success(1)
      case _ => Failure(TypeError)
  }

  /**
   * `on_play_pause`: one more tap, the previous timer cancelled, and a new
   * one started for the configured window. If reading the window raises,
   * the tap is counted and the old timer is already cancelled, but no new
   * timer starts.
   */
  function OnPlayPause(d: Detector, c: LegacyConfig.Config, at: int): (r: DetectorOutcome)
    ensures r.next.tapCount == d.tapCount + 1
    ensures WindowMs(c).Success? ==> r.next.timer == Some(at + WindowMs(c).value) && r.effects == []
    ensures WindowMs(c).Failure? ==> r.next.timer == None && r.effects == [Raised(WindowMs(c).error)]
  {
    match WindowMs(c)
    case Success(ms) => Outcome(Detector(d.tapCount + 1, Some(at + ms)), [])
    case Failure(e) => Outcome(Detector(d.tapCount + 1, None), [Raised(e)])
  }

  /** Look an action up and hand it to the executor, whatever it is. */
  function DispatchMapping(c: LegacyConfig.Config, name: string): (effects: seq<Effect>)
    ensures |effects| == 1
  {
    match LegacyConfig.GetMapping(c, name)
    case Success(action) => [Dispatch(action)]
    case Failure(e) => [Raised(e)]
  }

  /**
   * `_process_taps`: the count is read and reset and the timer cleared before
   * anything is dispatched, so the state is clean even when the lookup
   * raises. Only a count of zero dispatches nothing.
   */
  function ProcessTaps(d: Detector, c: LegacyConfig.Config): (r: DetectorOutcome)
    ensures r.next == Initial
    ensures d.tapCount == 0 <==> r.effects == []
    ensures d.tapCount > 0 ==> r.effects == DispatchMapping(c, Tiers[Min(d.tapCount, 3) - 1])
  {
    TierIsCappedCount(d.tapCount);
    match TierMapping(d.tapCount)
    case None => Outcome(Initial, [])
    case Some(name) => Outcome(Initial, DispatchMapping(c, name))
  }

  /** The clock reaching `at`: the pending timer fires if its deadline has come, otherwise nothing happens. */
  function OnTimerFire(d: Detector, c: LegacyConfig.Config, at: int): (r: DetectorOutcome)
    ensures (d.timer.Some? && d.timer.value <= at) ==> r == ProcessTaps(d, c)
    ensures !(d.timer.Some? && d.timer.value <= at) ==> r == Outcome(d, [])
  {
    if d.timer.Some? && d.timer.value <= at then ProcessTaps(d, c) else Outcome(d, [])
  }

  /** `on_next_track` and `on_previous_track`: dispatch at once, leaving the tap state alone. */
  function OnTrackKey(d: Detector, c: LegacyConfig.Config, mapping: string): (r: DetectorOutcome)
    ensures r.next == d
    ensures r.effects == DispatchMapping(c, mapping)
  {
    Outcome(d, DispatchMapping(c, mapping))
  }

  /** The pending timer's deadline has come by `at`. */
  predicate Due(d: Detector, at: int) {
    d.timer.Some? && d.timer.value <= at
  }

  /** The callback an event runs once the clock has reached its time; a clock tick runs none. */
  function Callback(d: Detector, c: LegacyConfig.Config, e: Event): DetectorOutcome {
    match e
    case PlayPause(at) => OnPlayPause(d, c, at)
    case TimerFire(_) => Outcome(d, [])
    case NextTrack(_) => OnTrackKey(d, c, "next_track")
    case PreviousTrack(_) => OnTrackKey(d, c, "previous_track")
  }

  /**
   * One event. The timer runs on its own thread, so before any event at `at`
   * is handled, a timer whose deadline has come fires first and resolves the
   * taps, and the event's callback then runs on the detector at rest; a
   * deadline equal to the event's time counts as come.
   */
  function Step(d: Detector, c: LegacyConfig.Config, e: Event): (r: DetectorOutcome)
    ensures !Due(d, e.at) ==> r == Callback(d, c, e)
    ensures Due(d, e.at) ==>
              r == Outcome(Callback(Initial, c, e).next, ProcessTaps(d, c).effects + Callback(Initial, c, e).effects)
  {
    var fired := OnTimerFire(d, c, e.at);
    var handled := Callback(fired.next, c, e);
    Outcome(handled.next, fired.effects + handled.effects)
  }

  /** The detector's step for a fixed configuration. */
  function Stepper(c: LegacyConfig.Config): (Detector, Event) -> DetectorOutcome {
    (d, e) => Step(d, c, e)
  }

  /** The events in order, with their effects concatenated. */
  function RunAll(d: Detector, c: LegacyConfig.Config, events: seq<Event>): DetectorOutcome {
    Run(Stepper(c), d, events)
  }

  /** Presses at the given times. */
  function Presses(times: seq<int>): seq<Event> {
    seq(|times|, i requires 0 <= i < |times| => PlayPause(times[i]))
  }

  /** The configured window is a positive number of milliseconds. */
  predicate WindowOk(c: LegacyConfig.Config) {
    WindowMs(c).Success? && WindowMs(c).value > 0
  }

  /** Every press comes before the timer the previous press started is due. */
  predicate WithinWindow(times: seq<int>, windowMs: int) {
    forall i :: 0 < i < |times| ==> times[i] < times[i - 1] + windowMs
  }

  /**
   * Presses that each land before the previous press's timer is due keep
   * accumulating: after N of them the count has grown by N, one timer is
   * pending for the last press, and nothing has been dispatched.
   */
  lemma {:induction false} PressesAccumulate(d: Detector, c: LegacyConfig.Config, times: seq<int>)
    requires WindowOk(c)
    requires |times| > 0
    requires d.timer.None? || times[0] < d.timer.value
    requires WithinWindow(times, WindowMs(c).value)
    ensures var r := RunAll(d, c, Presses(times));
            && r.next == Detector(d.tapCount + |times|, Some(times[|times| - 1] + WindowMs(c).value))
            && r.effects == []
    decreases |times|
  {
    var first := Step(d, c, PlayPause(times[0]));
    assert Presses(times)[0] == PlayPause(times[0]);
    if |times| > 1 {
      assert Presses(times)[1..] == Presses(times[1..]);
      assert times[1..][0] == times[1];
      PressesAccumulate(first.next, c, times[1..]);
    } else {
      assert Presses(times) == [PlayPause(times[0])];
      RunSingle(Stepper(c), d, PlayPause(times[0]));
    }
  }

  /**
   * N presses from rest, each within the window of the previous one, then the
   * clock reaching the last deadline: exactly one dispatch, of tier min(N, 3),
   * and the detector is back at rest.
   */
  lemma NPressesOneDispatch(c: LegacyConfig.Config, times: seq<int>, at: int)
    requires WindowOk(c)
    requires |times| > 0
    requires WithinWindow(times, WindowMs(c).value)
    requires at >= times[|times| - 1] + WindowMs(c).value
    ensures RunAll(Initial, c, Presses(times) + [TimerFire(at)])
            == Outcome(Initial, DispatchMapping(c, Tiers[Min(|times|, 3) - 1]))
  {
    PressesAccumulate(Initial, c, times);
    RunAppend(Stepper(c), Initial, Presses(times), [TimerFire(at)]);
    RunSingle(Stepper(c), RunAll(Initial, c, Presses(times)).next, TimerFire(at));
  }

  /**
   * The track keys never touch the tap count or a timer that is not yet due,
   * even in the middle of a tap sequence; a due timer resolves the taps
   * before the track key's own action is dispatched.
   */
  lemma TrackKeysLeaveTaps(d: Detector, c: LegacyConfig.Config, at: int)
    ensures !Due(d, at) ==> Step(d, c, NextTrack(at)) == Outcome(d, DispatchMapping(c, "next_track"))
    ensures !Due(d, at) ==> Step(d, c, PreviousTrack(at)) == Outcome(d, DispatchMapping(c, "previous_track"))
    ensures Due(d, at) ==>
              Step(d, c, NextTrack(at)) == Outcome(Initial, ProcessTaps(d, c).effects + DispatchMapping(c, "next_track"))
    ensures Due(d, at) ==>
              Step(d, c, PreviousTrack(at))
              == Outcome(Initial, ProcessTaps(d, c).effects + DispatchMapping(c, "previous_track"))
  {
  }

  /** With the default configuration the window is 400 ms and two presses resolve to the next-track action. */
  lemma DefaultDoublePress()
    ensures WindowMs(LegacyConfig.DefaultConfig) == Success(400)
    ensures RunAll(Initial, LegacyConfig.DefaultConfig, [PlayPause(0), PlayPause(150), TimerFire(550)])
            == Outcome(Initial, [Dispatch(Str("next_track"))])
  {
    assert WindowOk(LegacyConfig.DefaultConfig);
    assert Presses([0, 150]) == [PlayPause(0), PlayPause(150)];
    NPressesOneDispatch(LegacyConfig.DefaultConfig, [0, 150], 550);
  }

  /**
   * Two presses further apart than the window are two sequences: the first
   * press's timer fires before the second press is counted, and each
   * dispatches the single-press action ("none" by default).
   */
  lemma DefaultSeparatePresses()
    ensures RunAll(Initial, LegacyConfig.DefaultConfig, [PlayPause(0), PlayPause(450), TimerFire(850)])
            == Outcome(Initial, [Dispatch(Str("none")), Dispatch(Str("none"))])
  {
    var c := LegacyConfig.DefaultConfig;
    assert WindowMs(c) == Success(400);
    var s1 := Step(Initial, c, PlayPause(0));
    assert s1 == Outcome(Detector(1, Some(400)), []);
    var s2 := Step(s1.next, c, PlayPause(450));
    assert s2 == Outcome(Detector(1, Some(850)), [Dispatch(Str("none"))]);
    var s3 := Step(s2.next, c, TimerFire(850));
    assert s3 == Outcome(Initial, [Dispatch(Str("none"))]);
    RunAppend(Stepper(c), Initial, [PlayPause(0)], [PlayPause(450), TimerFire(850)]);
    RunAppend(Stepper(c), s1.next, [PlayPause(450)], [TimerFire(850)]);
    RunSingle(Stepper(c), Initial, PlayPause(0));
    RunSingle(Stepper(c), s1.next, PlayPause(450));
    RunSingle(Stepper(c), s2.next, TimerFire(850));
    assert [PlayPause(0)] + [PlayPause(450), TimerFire(850)] == [PlayPause(0), PlayPause(450), TimerFire(850)];
    assert [PlayPause(450)] + [TimerFire(850)] == [PlayPause(450), TimerFire(850)];
  }
}
