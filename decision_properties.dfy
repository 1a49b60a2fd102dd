/** Properties of the decision engine over one update and over a run of
    updates: EMA bounds, the hysteresis of DISTRACTED, bounded-latency
    alerting and immediate alert cancellation. */
module DecisionProperties {
  import Detection
  import opened Decision

  /** One call of `update`: the detection result and the clock reading. */
  datatype Observation = Observation(result: DetectionResult, now: real)

  /** The engine state after a run of updates, oldest first. */
  function Run(c: DecisionConfig, s: EngineState, obs: seq<Observation>): EngineState
    decreases |obs|
  {
    if obs == [] then s
    else Run(c, Next(c, s, obs[0].result, obs[0].now), obs[1..])
  }

  /** From STUDYING a single update enters DISTRACTED exactly when the new
      EMA falls below the threshold, and never reaches ALERT_ACTIVE. */
  lemma StudyingStep(c: DecisionConfig, s: EngineState, result: DetectionResult, now: real)
    requires s.state == Studying
    ensures var t := Next(c, s, result, now);
            && (t.state == Distracted <==> t.ema < c.studyingThreshold)
            && t.state != AlertActive
            && (t.state == Distracted ==> t.enteredAt == now)
  {
  }

  /** From ALERT_ACTIVE a single update returns to STUDYING as soon as the new
      EMA reaches the threshold, however little time has passed. */
  lemma AlertStep(c: DecisionConfig, s: EngineState, result: DetectionResult, now: real)
    requires s.state == AlertActive
    ensures var t := Next(c, s, result, now);
            && (t.state == Studying <==> t.ema >= c.studyingThreshold)
            && (t.state == AlertActive <==> t.ema < c.studyingThreshold)
            && (t.state == Studying ==> t.enteredAt == now)
  {
  }

  /** From DISTRACTED there are three outcomes: recovery after the recovery
      delay, escalation after the distraction timeout, or no change at all. */
  lemma DistractedStep(c: DecisionConfig, s: EngineState, result: DetectionResult, now: real)
    requires s.state == Distracted
    ensures var t := Next(c, s, result, now);
            && (t.state == Studying <==>
                  t.ema >= c.studyingThreshold && now - s.enteredAt >= c.recoveryTime)
            && (t.state == AlertActive <==>
                  t.ema < c.studyingThreshold && now - s.enteredAt >= c.distractionTimeout)
            && (t.state == Distracted ==> t.enteredAt == s.enteredAt)
            && (t.state != Distracted ==> t.enteredAt == now)
  {
  }

  /** An absent subject moves the engine exactly as a frame with no studying
      evidence at all does, whatever the absent score. */
  lemma AbsentActsLikeNotStudying(c: DecisionConfig, s: EngineState, absent: DetectionResult,
                                  distracted: DetectionResult, now: real)
    requires absent.status == Detection.Absent
    requires distracted.status != Detection.Absent
    requires distracted.studyingScore == 0.0 && distracted.notStudyingScore >= IndeterminateTotal
    ensures StudyingRatio(absent) == StudyingRatio(distracted) == 0.0
    ensures Next(c, s, absent, now).state == Next(c, s, distracted, now).state
    ensures Next(c, s, absent, now).ema == Next(c, s, distracted, now).ema
  {
  }

  /** The studying ratio is at least one half exactly when the studying
      score is at least the not-studying score (for a present, determinate frame). */
  lemma RatioFavoursLargerScore(result: DetectionResult)
    requires result.status != Detection.Absent && Total(result) >= IndeterminateTotal
    ensures StudyingRatio(result) >= NeutralRatio <==> result.studyingScore >= result.notStudyingScore
  {
    HalfShare(StudyingRatio(result), result.studyingScore, result.notStudyingScore);
  }

  /** A share r of the whole s + n, with r * (s + n) == s, is at least one half exactly when s >= n. */
  lemma HalfShare(r: real, s: real, n: real)
    requires s + n > 0.0 && r * (s + n) == s
    ensures r >= 0.5 <==> s >= n
  {
    if r >= 0.5 {
      assert r * (s + n) >= 0.5 * (s + n);
    } else {
      assert r * (s + n) < 0.5 * (s + n);
    }
  }

  /** Swapping the two scores of a present frame turns the ratio r into 1 - r. */
  lemma RatioSymmetric(result: DetectionResult)
    requires result.status != Detection.Absent
    ensures var swapped := result.(studyingScore := result.notStudyingScore,
                                   notStudyingScore := result.studyingScore);
            StudyingRatio(swapped) == 1.0 - StudyingRatio(result)
  {
    var swapped := result.(studyingScore := result.notStudyingScore,
                           notStudyingScore := result.studyingScore);
    assert Total(swapped) == Total(result);
    if Total(result) >= IndeterminateTotal {
      var total := Total(result);
      calc {
        StudyingRatio(swapped);
        result.notStudyingScore / total;
        (total - result.studyingScore) / total;
        total / total - result.studyingScore / total;
        1.0 - StudyingRatio(result);
      }
    }
  }

  /** With the default smoothing (alpha 0.3, threshold 0.5), one clearly
      not-studying frame leaves a fresh engine in STUDYING: the EMA only
      falls from 1.0 to 0.73, so neither DISTRACTED nor ALERT_ACTIVE is reached. */
  lemma SingleBadFrameIsAbsorbed(t0: real, now: real)
    ensures var c := DecisionConfig(0.3, 0.5, 30.0, 5.0);
            var frame := Detection.DetectionResult(Detection.NotStudying, 0.9, 0.1, 0.9, 0.05);
            var t := Next(c, Initial(t0), frame, now);
            t.ema == 0.73 && t.state == Studying && t.enteredAt == t0
  {
  }

  /** The time in state seen after an update: zero after a real transition,
      otherwise the same elapsed time as before the update. */
  lemma ClockRestartsOnlyOnTransition(c: DecisionConfig, s: EngineState, result: DetectionResult, now: real)
    ensures var t := Next(c, s, result, now);
            Elapsed(t, now) == if t.state != s.state then 0.0 else Elapsed(s, now)
  {
  }

  /** Repeating one frame with the clock standing still can still change the
      state: the EMA keeps drifting toward the frame's ratio, and with the
      default smoothing a fresh engine fed three 0.1/0.9 frames at time 0 is
      STUDYING after two of them (EMA 0.541) and DISTRACTED after the third
      (EMA 0.4087). */
  lemma FrozenClockRepeatsCanDistract()
    ensures var c := DecisionConfig(0.3, 0.5, 30.0, 5.0);
            var o := Observation(Detection.DetectionResult(Detection.NotStudying, 0.9, 0.1, 0.9, 0.05), 0.0);
            && Run(c, Initial(0.0), [o, o]).state == Studying
            && Run(c, Initial(0.0), [o, o]).ema == 0.541
            && Run(c, Initial(0.0), [o, o, o]).state == Distracted
            && Run(c, Initial(0.0), [o, o, o]).ema == 0.4087
  {
    var c := DecisionConfig(0.3, 0.5, 30.0, 5.0);
    var o := Observation(Detection.DetectionResult(Detection.NotStudying, 0.9, 0.1, 0.9, 0.05), 0.0);
    var s1 := Next(c, Initial(0.0), o.result, 0.0);
    var s2 := Next(c, s1, o.result, 0.0);
    var s3 := Next(c, s2, o.result, 0.0);
    assert StudyingRatio(o.result) == 0.1;
    assert s1.ema == 0.73 && s1.state == Studying;
    assert s2.ema == 0.541 && s2.state == Studying;
    assert s3.ema == 0.4087 && s3.state == Distracted;
    assert [o, o][1..] == [o] && [o, o, o][1..] == [o, o] && [o][1..] == [];
    assert Run(c, s2, [o]) == s3;
    assert Run(c, s1, [o]) == s2;
    assert Run(c, Initial(0.0), [o, o]) == Run(c, s1, [o]);
    assert Run(c, s1, [o, o]) == Run(c, s2, [o]);
    assert Run(c, Initial(0.0), [o, o, o]) == Run(c, s1, [o, o]);
  }

  /** The positive delays matter: with a distraction timeout of 0 (a value
      the command line can set without validation), an update at the very
      moment DISTRACTED was entered already raises the alert. */
  lemma ZeroTimeoutAlertsAtOnce(t0: real)
    ensures var c := DecisionConfig(1.0, 0.5, 0.0, 5.0);
            var s := EngineState(Distracted, 0.0, t0, Detection.None);
            var frame := Detection.DetectionResult(Detection.NotStudying, 0.9, 0.1, 0.9, 0.05);
            Next(c, s, frame, t0).state == AlertActive
  {
  }

  /** Over any run of well-formed detections the EMA stays within [0, 1]. */
  lemma {:induction false} RunKeepsEmaInUnitInterval(c: DecisionConfig, s: EngineState, obs: seq<Observation>)
    requires 0.0 < c.emaAlpha <= 1.0 && 0.0 <= s.ema <= 1.0
    requires forall i :: 0 <= i < |obs| ==> Detection.ScoresNonNegative(obs[i].result)
    ensures 0.0 <= Run(c, s, obs).ema <= 1.0
    decreases |obs|
  {
    if obs != [] {
      var t := Next(c, s, obs[0].result, obs[0].now);
      assert Detection.ScoresNonNegative(obs[0].result);
      RunKeepsEmaInUnitInterval(c, t, obs[1..]);
    }
  }

  /** Hysteresis: DISTRACTED is left neither way, and its entry time is kept,
      while every update comes before the shorter of the two delays. */
  lemma {:induction false} DistractedHoldsDuringHysteresis(c: DecisionConfig, s: EngineState, obs: seq<Observation>)
    requires s.state == Distracted
    requires forall i :: 0 <= i < |obs| ==> obs[i].now - s.enteredAt < Min(c.recoveryTime, c.distractionTimeout)
    ensures Run(c, s, obs).state == Distracted && Run(c, s, obs).enteredAt == s.enteredAt
    decreases |obs|
  {
    if obs != [] {
      var t := Next(c, s, obs[0].result, obs[0].now);
      assert obs[0].now - s.enteredAt < Min(c.recoveryTime, c.distractionTimeout);
      DistractedHoldsDuringHysteresis(c, t, obs[1..]);
    }
  }

  /** With the clock standing still, a DISTRACTED engine stays DISTRACTED
      however many identical or different results it receives. */
  lemma FrozenClockKeepsDistracted(c: DecisionConfig, s: EngineState, obs: seq<Observation>)
    requires c.recoveryTime > 0.0 && c.distractionTimeout > 0.0 && s.state == Distracted
    requires forall i :: 0 <= i < |obs| ==> obs[i].now == s.enteredAt
    ensures Run(c, s, obs).state == Distracted && Run(c, s, obs).enteredAt == s.enteredAt
  {
    DistractedHoldsDuringHysteresis(c, s, obs);
  }

  /** Bounded-latency alerting: while every frame's ratio is below the
      threshold (and so the EMA stays below it), an engine in DISTRACTED or
      ALERT_ACTIVE is in ALERT_ACTIVE after any update made at least the
      distraction timeout after DISTRACTED was entered. */
  lemma {:induction false} AlertAfterSustainedDistraction(c: DecisionConfig, s: EngineState, obs: seq<Observation>)
    requires 0.0 < c.emaAlpha <= 1.0
    requires s.state == Distracted || s.state == AlertActive
    requires s.ema < c.studyingThreshold
    requires forall i :: 0 <= i < |obs| ==> StudyingRatio(obs[i].result) < c.studyingThreshold
    requires |obs| > 0
    requires s.state == Distracted ==> obs[|obs| - 1].now - s.enteredAt >= c.distractionTimeout
    ensures Run(c, s, obs).state == AlertActive
    decreases |obs|
  {
    var t := Next(c, s, obs[0].result, obs[0].now);
    assert StudyingRatio(obs[0].result) < c.studyingThreshold;
    assert t.ema < c.studyingThreshold;
    if |obs| > 1 {
      assert obs[1..][|obs[1..]| - 1] == obs[|obs| - 1];
      AlertAfterSustainedDistraction(c, t, obs[1..]);
    }
  }

  /** Recovery: while every frame's ratio is at least the threshold (and so
      the EMA stays at or above it), the engine is in STUDYING after any
      update made at least the recovery time after DISTRACTED was entered;
      from STUDYING or ALERT_ACTIVE no waiting is needed. */
  lemma {:induction false} RecoveryAfterSustainedStudying(c: DecisionConfig, s: EngineState, obs: seq<Observation>)
    requires 0.0 < c.emaAlpha <= 1.0
    requires s.ema >= c.studyingThreshold
    requires forall i :: 0 <= i < |obs| ==> StudyingRatio(obs[i].result) >= c.studyingThreshold
    requires |obs| > 0
    requires s.state == Distracted ==> obs[|obs| - 1].now - s.enteredAt >= c.recoveryTime
    ensures Run(c, s, obs).state == Studying
    decreases |obs|
  {
    var t := Next(c, s, obs[0].result, obs[0].now);
    assert StudyingRatio(obs[0].result) >= c.studyingThreshold;
    assert t.ema >= c.studyingThreshold;
    if |obs| > 1 {
      assert obs[1..][|obs[1..]| - 1] == obs[|obs| - 1];
      RecoveryAfterSustainedStudying(c, t, obs[1..]);
    }
  }
}
