/** The decision engine: a studying ratio per frame, an exponential moving
    average (EMA) over it, and a three-state machine with time-based
    hysteresis. The clock is an explicit `now` argument (seconds on a
    monotonic clock); scores and the EMA are mathematical reals. */
module Decision {
  import Detection

  type DetectionResult = Detection.DetectionResult
  type Option<T> = Detection.Option<T>

  /** States of the study monitor. */
  datatype StudyState = Studying | Distracted | AlertActive

  /** Settings of the engine: EMA weight, threshold and the two delays (seconds). */
  datatype DecisionConfig = DecisionConfig(
    emaAlpha: real,
    studyingThreshold: real,
    distractionTimeout: real,
    recoveryTime: real)

  /** Below this sum of studying and not-studying scores a frame is indeterminate. */
  const IndeterminateTotal: real := 0.01

  /** Ratio returned for an indeterminate frame: neither studying nor not. */
  const NeutralRatio: real := 0.5

  function Min(x: real, y: real): real { if x <= y then x else y }
  function Max(x: real, y: real): real { if x <= y then y else x }

  /** Evidence for studying, in the frame's own two scores. */
  function Total(result: DetectionResult): real {
    result.studyingScore + result.notStudyingScore
  }

  /** Maps a detection to a single studying ratio: 1 is surely studying,
      0 is surely not (an absent subject counts as not studying). */
  function StudyingRatio(result: DetectionResult): (r: real)
    ensures result.status == Detection.Absent ==> r == 0.0
    ensures result.status != Detection.Absent && Total(result) < IndeterminateTotal ==> r == NeutralRatio
    ensures result.status != Detection.Absent && Total(result) >= IndeterminateTotal ==>
              r * Total(result) == result.studyingScore
    ensures Detection.ScoresNonNegative(result) ==> 0.0 <= r <= 1.0
  {
    if result.status == Detection.Absent then 0.0
    else
      var total := result.studyingScore + result.notStudyingScore;
      if total < IndeterminateTotal then NeutralRatio
      else
        var r := result.studyingScore / total;
        if Detection.ScoresNonNegative(result) then ShareBounds(result.studyingScore, total); r else r
  }

  /** A part of a positive whole is a share in [0, 1]. */
  lemma ShareBounds(part: real, whole: real)
    requires 0.0 <= part <= whole && whole > 0.0
    ensures 0.0 <= part / whole <= 1.0
  {
    assert part / whole * whole == part;
  }

  /** One EMA step: the new value weighs the latest sample by `alpha`. */
  function Smooth(alpha: real, sample: real, ema: real): (r: real)
    ensures r - sample == (1.0 - alpha) * (ema - sample)
    ensures 0.0 < alpha <= 1.0 ==> Min(sample, ema) <= r <= Max(sample, ema)
  {
    var r := alpha * sample + (1.0 - alpha) * ema;
    assert r - sample == (1.0 - alpha) * (ema - sample);
    if 0.0 < alpha <= 1.0 then ScaledBetween(1.0 - alpha, ema - sample); r else r
  }

  /** Scaling by a factor in [0, 1] keeps a value between zero and itself. */
  lemma ScaledBetween(k: real, d: real)
    requires 0.0 <= k <= 1.0
    ensures Min(0.0, d) <= k * d <= Max(0.0, d)
  {
    if d >= 0.0 {
      assert k * d <= 1.0 * d;
    } else {
      assert k * -d <= 1.0 * -d;
    }
  }

  /** The transition table of the state machine, given whether the smoothed
      ratio counts as studying and how long the current state has lasted. */
  function Transition(c: DecisionConfig, s: StudyState, isStudying: bool, timeInState: real): (r: StudyState)
    // STUDYING is entered or kept exactly on a studying signal, and from DISTRACTED only after the recovery delay
    ensures r == Studying <==> isStudying && (s == Distracted ==> timeInState >= c.recoveryTime)
    // ALERT_ACTIVE is kept, or entered from DISTRACTED after the timeout, exactly on a non-studying signal
    ensures r == AlertActive <==>
              !isStudying && (s == AlertActive || (s == Distracted && timeInState >= c.distractionTimeout))
    // nothing leaves DISTRACTED before the shorter of the two delays
    ensures s == Distracted && timeInState < Min(c.recoveryTime, c.distractionTimeout) ==> r == Distracted
  {
    match s
    case Studying => if isStudying then Studying else Distracted
    case Distracted =>
      if isStudying && timeInState >= c.recoveryTime then Studying
      else if !isStudying && timeInState >= c.distractionTimeout then AlertActive
      else Distracted
    case AlertActive => if isStudying then Studying else AlertActive
  }

  /** The engine's whole state as a value. */
  datatype EngineState = EngineState(
    state: StudyState,
    ema: real,
    enteredAt: real,
    lastDetection: Option<DetectionResult>)

  /** The state of a fresh or reset engine at time `now`: optimistic STUDYING. */
  function Initial(now: real): EngineState {
    EngineState(Studying, 1.0, now, Detection.None)
  }

  /** Seconds spent in the current state at time `now`. */
  function Elapsed(s: EngineState, now: real): real {
    now - s.enteredAt
  }

  /** What one update does to the engine state: record the result, smooth
      its ratio into the EMA, take one step of the transition table, and
      restart the state clock only when the state changes. */
  function Next(c: DecisionConfig, s: EngineState, result: DetectionResult, now: real): EngineState {
    var ema := Smooth(c.emaAlpha, StudyingRatio(result), s.ema);
    var next := Transition(c, s.state, ema >= c.studyingThreshold, Elapsed(s, now));
    EngineState(next, ema, if next == s.state then s.enteredAt else now, Detection.Some(result))
  }

  /** The engine object: four fields that `Update` and `Reset` change in place. */
  class DecisionEngine {
    const config: DecisionConfig
    var state: StudyState
    var emaStudying: real
    var stateEnteredAt: real
    var lastDetection: Option<DetectionResult>

    /** The fields as one engine-state value. */
    function Snapshot(): EngineState
      reads this
    {
      EngineState(state, emaStudying, stateEnteredAt, lastDetection)
    }

    constructor (config: DecisionConfig, now: real)
      ensures this.config == config
      ensures state == Studying && emaStudying == 1.0
      ensures stateEnteredAt == now && lastDetection == Detection.None
      ensures Snapshot() == Initial(now) && TimeInState(now) == 0.0
    {
      this.config := config;
      state := Studying;
      emaStudying := 1.0;
      stateEnteredAt := now;
      lastDetection := Detection.None;
    }

    /** Seconds spent in the current state at time `now`. */
    function TimeInState(now: real): (t: real)
      reads this
      ensures t == Elapsed(Snapshot(), now)
    {
      now - stateEnteredAt
    }

    /** Enters `newState` and restarts the state clock. */
    method TransitionTo(newState: StudyState, now: real)
      modifies this`state, this`stateEnteredAt
      ensures state == newState && stateEnteredAt == now
    {
      state := newState;
      stateEnteredAt := now;
    }

    /** Processes one detection result at time `now` and returns the state
        after it. */
    method Update(result: DetectionResult, now: real) returns (s: StudyState)
      modifies this
      ensures Snapshot() == Next(config, old(Snapshot()), result, now)
      ensures s == state
      // the state clock restarts on a real transition and runs on otherwise
      ensures state != old(state) ==> TimeInState(now) == 0.0
      ensures state == old(state) ==> TimeInState(now) == old(TimeInState(now))
    {
      lastDetection := Detection.Some(result);

      var rawScore := StudyingRatio(result);
      var alpha := config.emaAlpha;
      emaStudying := alpha * rawScore + (1.0 - alpha) * emaStudying;

      var isStudying := emaStudying >= config.studyingThreshold;
      var timeInState := TimeInState(now);

      if state == Studying {
        if !isStudying {
          TransitionTo(Distracted, now);
        }
      } else if state == Distracted {
        if isStudying && timeInState >= config.recoveryTime {
          TransitionTo(Studying, now);
        } else if isStudying {
          // still recovering: stay DISTRACTED
        } else if !isStudying && timeInState >= config.distractionTimeout {
          TransitionTo(AlertActive, now);
        }
      } else if state == AlertActive && isStudying {
        TransitionTo(Studying, now);
      }

      s := state;
    }

    /** Returns to the initial state, whatever the history. */
    method Reset(now: real)
      modifies this
      ensures state == Studying && emaStudying == 1.0
      ensures stateEnteredAt == now && lastDetection == Detection.None
      ensures Snapshot() == Initial(now) && TimeInState(now) == 0.0
    {
      state := Studying;
      emaStudying := 1.0;
      stateEnteredAt := now;
      lastDetection := Detection.None;
    }
  }
}
