/** The caller's side of the engine: one monitoring cycle of the main loop,
    which analyses a frame only when the rate limiter allows it, feeds the
    result to the engine and tells the alerter what to do with the state. */
module Monitor {
  import Detection
  import opened Decision
  import Camera

  /** What the caller asks of the alerter after an update. */
  datatype AlertCall = Play | Stop | NoCall

  /** The dispatch rule: ALERT_ACTIVE plays the alert, STUDYING stops it,
      DISTRACTED leaves it as it is. */
  function Dispatch(state: StudyState): (call: AlertCall)
    ensures call == Play <==> state == AlertActive
    ensures call == Stop <==> state == Studying
  {
    match state
    case AlertActive => Play
    case Studying => Stop
    case Distracted => NoCall
  }

  /** The alert is stopped on the very update whose EMA reaches the threshold
      from ALERT_ACTIVE, and started on the update that escalates DISTRACTED
      after the timeout. */
  lemma DispatchFollowsEscalationAndCancellation(c: DecisionConfig, s: EngineState,
                                                 result: DetectionResult, now: real)
    ensures var t := Next(c, s, result, now);
            && (s.state == AlertActive && t.ema >= c.studyingThreshold ==> Dispatch(t.state) == Stop)
            && ((s.state == Distracted && t.ema < c.studyingThreshold &&
                 now - s.enteredAt >= c.distractionTimeout) ==> Dispatch(t.state) == Play)
            && (s.state == Studying ==> Dispatch(t.state) != Play)
  {
  }

  /** While the engine stays in ALERT_ACTIVE, every update asks for the alert
      again, not only the update that entered it. */
  lemma PlayRepeatsWhileAlertActive(c: DecisionConfig, s: EngineState, result: DetectionResult, now: real)
    requires s.state == AlertActive
    requires Next(c, s, result, now).ema < c.studyingThreshold
    ensures Dispatch(Next(c, s, result, now).state) == Play
  {
  }

  /** One pass of the main loop for a frame at time `now` whose detection, if
      the frame is analysed, is `result`. Returns the alerter call made, or
      none when the rate limiter skipped the frame. */
  method Cycle(camera: Camera.Camera, engine: DecisionEngine, result: DetectionResult, now: real)
    returns (call: Detection.Option<AlertCall>)
    modifies camera, engine
    ensures Camera.Due(old(camera.lastCaptureTime), camera.captureInterval, now) ==>
              && engine.Snapshot() == Next(engine.config, old(engine.Snapshot()), result, now)
              && call == Detection.Some(Dispatch(engine.state))
              && camera.lastCaptureTime == now
    ensures !Camera.Due(old(camera.lastCaptureTime), camera.captureInterval, now) ==>
              && engine.Snapshot() == old(engine.Snapshot())
              && call == Detection.None
              && camera.lastCaptureTime == old(camera.lastCaptureTime)
  {
    var capture := camera.ShouldCapture(now);
    if capture {
      var state := engine.Update(result, now);
      call := Detection.Some(Dispatch(state));
    } else {
      call := Detection.None;
    }
  }
}
