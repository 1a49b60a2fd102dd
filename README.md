# StudyWatchdog decision engine in Dafny

StudyWatchdog watches a student through a webcam. A vision-language scorer
classifies each analysed frame as studying, not studying or absent. This
project models the part that turns those noisy per-frame results into a
stable state that can raise and cancel an alert:

- **Studying ratio** (`Decision.StudyingRatio`). An absent subject gives 0.
  A frame whose studying and not-studying scores sum to less than 0.01 is
  indeterminate and gives 0.5. Any other frame gives
  `studying / (studying + not_studying)`.
- **EMA smoother** (`Decision.Smooth`). It computes `ema' = alpha * ratio + (1 - alpha) * ema`.
- **State machine** (`Decision.Transition`). It has three states: STUDYING,
  DISTRACTED and ALERT_ACTIVE. The hysteresis is asymmetric:
  - DISTRACTED is entered at once.
  - Leaving DISTRACTED for STUDYING waits `recovery_time`.
  - Escalating to ALERT_ACTIVE waits `distraction_timeout`.
  - ALERT_ACTIVE is left at once.
- **The engine object** (`Decision.DecisionEngine`). Its four fields are
  the state, the EMA, the state-entry time and the last detection.
  `Update` and `Reset` change them in place. `Update` is proved equal to
  the value-level specification `Decision.Next`.
- **The capture rate limiter** (`Camera.Camera.ShouldCapture`).
- **The caller's dispatch rule** (`Monitor.Dispatch`, `Monitor.Cycle`).
  ALERT_ACTIVE plays the alert, STUDYING stops it, and DISTRACTED does
  nothing.

The clock is never read inside the model. Every operation that needs it
takes `now` as an argument. One `Update` uses one clock reading, both for
the time spent in the state and for the new entry time. The original reads
the clock twice in one update, at `decision.py:116` and again at
`decision.py:68`. `Monitor.Cycle` likewise gives one `now` to both the rate
limiter and the engine. The original's main loop reads the clock first in
`should_capture` (`camera.py:97`) and again inside `update`, after frame
inference has run in between. Scores, ratios and the EMA are mathematical
reals.

The configuration loader checks some bounds: alpha in [0.01, 1], threshold
in [0, 1], distraction timeout at least 5, recovery time at least 1 and
capture interval in [0.5, 30]. The command line can override the timeout
and the interval after that check, without validation (`main.py:449-452`).
The engine and camera constructors therefore accept any configuration.
Each lemma states only the bounds it uses. For example, keeping the EMA in
[0, 1] needs only alpha in (0, 1], and a frozen clock holds DISTRACTED
only if both delays are positive (`DecisionProperties.ZeroTimeoutAlertsAtOnce`).

Runs of updates are modelled by `DecisionProperties.Run`, which folds
`Next` over a sequence of (result, time) observations. The lemmas over runs
state the engine's guarantees:
- the EMA stays in [0, 1];
- DISTRACTED holds for the whole hysteresis window;
- the alert is reached once distraction has lasted the timeout;
- recovery happens once studying has lasted the recovery time.

Three behaviours are worth knowing:
- The caller dispatches on every update, not only on transitions. While the
  engine stays in ALERT_ACTIVE, `play()` is requested on each analysed
  frame (`Monitor.PlayRepeatsWhileAlertActive`).
- Repeating the same result with the clock standing still can still change
  the state. The EMA keeps drifting toward the repeated ratio, so a STUDYING
  engine can fall into DISTRACTED after a few no-op updates. What does hold
  is that DISTRACTED is absorbing while the clock stands still
  (`DecisionProperties.FrozenClockKeepsDistracted`). A witness of the drift
  is `DecisionProperties.FrozenClockRepeatsCanDistract`.
- With the default smoothing, one bad frame does not even reach DISTRACTED
  (`DecisionProperties.SingleBadFrameIsAbsorbed`).

## Model

| member | source | states |
|---|---|---|
| Decision.StudyingRatio | src/studywatchdog/decision.py:76-97 | absent gives 0 whatever the scores; a total below 0.01 gives 0.5; otherwise ratio times total equals the studying score; with non-negative scores the ratio lies in [0, 1] |
| Decision.Smooth | src/studywatchdog/decision.py:110-113 | the new EMA's distance to the sample is (1 - alpha) times the old distance; for alpha in (0, 1] it lies between the sample and the old EMA |
| Decision.Transition | src/studywatchdog/decision.py:115-141 | STUDYING results exactly on a studying signal, and from DISTRACTED only once the recovery time has passed; ALERT_ACTIVE results exactly on a non-studying signal when already alerting or when DISTRACTED has lasted the timeout; DISTRACTED is kept while time in state is below both delays |
| Decision.DecisionEngine.constructor | src/studywatchdog/decision.py:37-42 | any configuration; the state is STUDYING with EMA 1.0, entry time `now` and no last detection (the value `Initial(now)`), so the time in state is 0 |
| Decision.DecisionEngine.TimeInState | src/studywatchdog/decision.py:54-57 | the time in state the transition table uses (`Elapsed` of the engine's value); `Update` restarts it at 0 on a real transition and leaves it running otherwise, and the constructor and `Reset` start it at 0 |
| Decision.DecisionEngine.TransitionTo | src/studywatchdog/decision.py:64-68 | the state becomes the new state and the entry time becomes `now`; the EMA and last detection are untouched |
| Decision.DecisionEngine.Update | src/studywatchdog/decision.py:99-143 | the new fields equal `Next` of the old fields: the result is recorded, the EMA is smoothed, one transition-table step is taken, the entry time is restarted only on a real transition; the time in state is 0 after a transition and unchanged otherwise; returns the new state |
| Decision.DecisionEngine.Reset | src/studywatchdog/decision.py:145-150 | from any state: STUDYING, EMA 1.0, entry time `now`, no last detection (the value `Initial(now)`), time in state 0 |
| DecisionProperties.StudyingStep | src/studywatchdog/decision.py:120-122 | from STUDYING one update enters DISTRACTED exactly when the new EMA is below the threshold, with no time condition, and never reaches ALERT_ACTIVE |
| DecisionProperties.DistractedStep | src/studywatchdog/decision.py:124-137 | from DISTRACTED, recovery exactly when the EMA is at or above the threshold and the recovery time has passed; escalation exactly when it is below and the timeout has passed; otherwise state and entry time are unchanged |
| DecisionProperties.AlertStep | src/studywatchdog/decision.py:139-141 | from ALERT_ACTIVE, STUDYING exactly when the EMA reaches the threshold, whatever the elapsed time, else ALERT_ACTIVE |
| DecisionProperties.AbsentActsLikeNotStudying | src/studywatchdog/decision.py:89-91 | an absent frame gives ratio 0 and moves state and EMA exactly as a present frame with zero studying score does |
| DecisionProperties.RatioFavoursLargerScore | src/studywatchdog/decision.py:93-97 | for a present, determinate frame the ratio is at least 0.5 exactly when the studying score is at least the not-studying score |
| DecisionProperties.RatioSymmetric | src/studywatchdog/decision.py:93-97 | swapping the two scores of a present frame maps the ratio r to 1 - r, including the indeterminate case |
| DecisionProperties.SingleBadFrameIsAbsorbed | tests/test_decision.py:71-79 | with alpha 0.3 and threshold 0.5 a fresh engine fed one 0.1/0.9 frame has EMA 0.73 and stays in STUDYING with its entry time |
| DecisionProperties.ClockRestartsOnlyOnTransition | src/studywatchdog/decision.py:64-68 | after one update, the time in state is 0 if the state changed and otherwise equals the time in state before the update |
| DecisionProperties.FrozenClockRepeatsCanDistract | src/studywatchdog/decision.py:111-122 | with alpha 0.3 and threshold 0.5, three identical 0.1/0.9 frames at time 0 take a fresh engine to EMA 0.541 while still STUDYING, then to EMA 0.4087 in DISTRACTED |
| DecisionProperties.ZeroTimeoutAlertsAtOnce | src/studywatchdog/decision.py:135-137 | with a distraction timeout of 0, a non-studying update at the moment DISTRACTED was entered escalates to ALERT_ACTIVE |
| DecisionProperties.RunKeepsEmaInUnitInterval | src/studywatchdog/decision.py:110-113 | with alpha in (0, 1] and non-negative scores, the EMA stays in [0, 1] over any run of updates |
| DecisionProperties.DistractedHoldsDuringHysteresis | src/studywatchdog/decision.py:124-137 | a DISTRACTED engine stays DISTRACTED with the same entry time over any run whose updates all come before the shorter of the two delays |
| DecisionProperties.FrozenClockKeepsDistracted | src/studywatchdog/decision.py:116-137 | with positive delays and the clock standing at the entry time, a DISTRACTED engine stays DISTRACTED with its entry time whatever results arrive |
| DecisionProperties.AlertAfterSustainedDistraction | src/studywatchdog/decision.py:135-141 | with alpha in (0, 1], while every ratio and the starting EMA are below the threshold, a DISTRACTED or alerting engine is in ALERT_ACTIVE after any update made at least the timeout after DISTRACTED was entered |
| DecisionProperties.RecoveryAfterSustainedStudying | src/studywatchdog/decision.py:120-141 | with alpha in (0, 1], while every ratio and the starting EMA are at or above the threshold, the engine is STUDYING after the run, provided a DISTRACTED start has lasted the recovery time by the last update |
| Camera.Camera.constructor | src/studywatchdog/camera.py:50-53 | any capture interval; the last capture time starts at 0.0 |
| Camera.Camera.ShouldCapture | src/studywatchdog/camera.py:91-101 | returns true exactly when `now` minus the last capture time reaches the interval; on true the last capture time becomes `now`, on false it is unchanged |
| Camera.FreshCameraFirstCall | src/studywatchdog/camera.py:50-101 | a newly built camera accepts its first `ShouldCapture` call exactly when `now` has reached the interval; its last capture time is then `now`, and 0.0 otherwise |
| Camera.CapturesAreCallTimes | src/studywatchdog/camera.py:97-101 | over any run of calls, every accepted time is a call time, and the field ends at the last accepted time, or at its start value if none was accepted |
| Camera.CapturesAreSpaced | src/studywatchdog/camera.py:97-101 | over any run of calls, the first accepted time is an interval after the last capture and consecutive accepted times are at least an interval apart |
| Camera.QuietAfterCapture | src/studywatchdog/camera.py:97-101 | after a capture at t, every call before t + interval is refused and the last capture time stays t |
| Monitor.Dispatch | src/studywatchdog/main.py:582-585 | play exactly in ALERT_ACTIVE, stop exactly in STUDYING, no call in DISTRACTED |
| Monitor.DispatchFollowsEscalationAndCancellation | src/studywatchdog/main.py:580-585 | the update that lifts the EMA to the threshold from ALERT_ACTIVE stops the alert; the update that escalates after the timeout plays it; an update from STUDYING never plays it |
| Monitor.PlayRepeatsWhileAlertActive | src/studywatchdog/main.py:582-583 | every update that keeps the engine in ALERT_ACTIVE requests play again |
| Monitor.Cycle | src/studywatchdog/main.py:578-585 | when the rate limiter accepts `now`, the engine takes one `Next` step and the dispatch for the new state is returned; otherwise the engine and camera are unchanged and no call is made |

## Left out

- Clock: `time.monotonic()` becomes the `now` argument. One update uses one reading, where the original reads the clock twice (`decision.py:116` and `decision.py:68`). The second reading can only be later, so the original's entry times can be slightly later than the model's.
- Floating point: scores, ratios, the EMA and times are reals, with no rounding.
- Logging in `_transition_to`, `update` and `reset` is left out, because it has no effect on state.
- `DetectionResult` and `ActivityStatus` are declared in `src/studywatchdog/detector.py`, but that file is only a placeholder in this repository. The model takes the five fields that the engine and the tests use. The per-descriptor score map and the inference latency are not part of this model.
- The score aggregator, meaning per-descriptor maximum and tie-breaking, does not exist in the code, so it is not part of this model.
- Configuration loading is left out: TOML loading, default-file writing and pydantic validation are file I/O and library code. The constructors take any values, as the code allows after command-line overrides.
- `Monitor.Cycle` uses one clock reading for the rate limiter and the engine, where the original's main loop reads the clock separately for each. Frame inference runs between the two readings.
- Camera device handling (`list_cameras`, `open`, `read_frame`, `close`, the context manager) is OpenCV device I/O.
- Detector and alerter: only their interface is modelled. The detector's output is the `result` argument of `Monitor.Cycle`. The alerter's `play()`/`stop()` calls are the returned `AlertCall`.
- In the main loop, frame reading, the pause toggle of the debug window, the FPS counter, the drawing code and the shutdown path are UI and I/O and are left out.
- The Python engine keeps a reference to its configuration object. The model copies it into a constant field, so no aliasing is modelled.
