/** The camera's capture rate limiter: a frame is analysed only when at
    least `captureInterval` seconds have passed since the last analysed one.
    The clock is an explicit `now` argument; the device itself is not modelled. */
module Camera {

  /** A call at time `now` is due when the interval since `last` has passed. */
  predicate Due(last: real, interval: real, now: real) {
    now - last >= interval
  }

  class Camera {
    const captureInterval: real
    var lastCaptureTime: real

    constructor (captureInterval: real)
      ensures this.captureInterval == captureInterval
      ensures lastCaptureTime == 0.0
    {
      this.captureInterval := captureInterval;
      lastCaptureTime := 0.0;
    }

    /** Decides whether the frame at time `now` should be analysed, and if so
        records `now` as the last capture time. */
    method ShouldCapture(now: real) returns (capture: bool)
      modifies this`lastCaptureTime
      ensures capture == Due(old(lastCaptureTime), captureInterval, now)
      ensures lastCaptureTime == if capture then now else old(lastCaptureTime)
    {
      if now - lastCaptureTime >= captureInterval {
        lastCaptureTime := now;
        return true;
      }
      return false;
    }
  }

  /** The times accepted by a run of `ShouldCapture` calls at `times`, oldest
      first, starting from last capture time `last`. */
  function Captures(last: real, interval: real, times: seq<real>): seq<real>
    decreases |times|
  {
    if times == [] then []
    else if Due(last, interval, times[0]) then [times[0]] + Captures(times[0], interval, times[1..])
    else Captures(last, interval, times[1..])
  }

  /** The last capture time after a run of calls at `times`. */
  function LastCapture(last: real, interval: real, times: seq<real>): real
    decreases |times|
  {
    if times == [] then last
    else if Due(last, interval, times[0]) then LastCapture(times[0], interval, times[1..])
    else LastCapture(last, interval, times[1..])
  }

  /** A fresh camera accepts its first call exactly when the clock has
      reached the capture interval, and records that call's time. */
  method FreshCameraFirstCall(interval: real, now: real) returns (capture: bool, last: real)
    ensures capture <==> now >= interval
    ensures last == if capture then now else 0.0
  {
    var camera := new Camera(interval);
    capture := camera.ShouldCapture(now);
    last := camera.lastCaptureTime;
  }

  /** Every accepted time is one of the call times, and the field ends at the
      last accepted time, or stays put when nothing was accepted. */
  lemma {:induction false} CapturesAreCallTimes(last: real, interval: real, times: seq<real>)
    ensures |Captures(last, interval, times)| <= |times|
    ensures forall k :: 0 <= k < |Captures(last, interval, times)| ==> Captures(last, interval, times)[k] in times
    ensures var caps := Captures(last, interval, times);
            LastCapture(last, interval, times) == if caps == [] then last else caps[|caps| - 1]
    decreases |times|
  {
    if times != [] {
      var next := if Due(last, interval, times[0]) then times[0] else last;
      CapturesAreCallTimes(next, interval, times[1..]);
      var rest := Captures(next, interval, times[1..]);
      forall k | 0 <= k < |rest|
        ensures rest[k] in times
      {
        assert rest[k] in times[1..];
      }
    }
  }

  /** Rate limiting: the first accepted time is at least one interval after
      the last capture, and consecutive accepted times are at least one
      interval apart, whatever the sequence of call times. */
  lemma {:induction false} CapturesAreSpaced(last: real, interval: real, times: seq<real>)
    ensures var caps := Captures(last, interval, times);
            && (caps != [] ==> caps[0] - last >= interval)
            && forall k :: 0 < k < |caps| ==> caps[k] - caps[k - 1] >= interval
    decreases |times|
  {
    if times != [] {
      if Due(last, interval, times[0]) {
        var rest := Captures(times[0], interval, times[1..]);
        CapturesAreSpaced(times[0], interval, times[1..]);
        var caps := [times[0]] + rest;
        forall k | 0 < k < |caps|
          ensures caps[k] - caps[k - 1] >= interval
        {
          if k > 1 {
            assert caps[k] == rest[k - 1] && caps[k - 1] == rest[k - 2];
          }
        }
      } else {
        CapturesAreSpaced(last, interval, times[1..]);
      }
    }
  }

  /** After a capture at time `t`, every call before `t + interval` is
      refused and leaves the last capture time at `t`. */
  lemma {:induction false} QuietAfterCapture(t: real, interval: real, times: seq<real>)
    requires forall k :: 0 <= k < |times| ==> times[k] < t + interval
    ensures Captures(t, interval, times) == []
    ensures LastCapture(t, interval, times) == t
    decreases |times|
  {
    if times != [] {
      assert times[0] < t + interval;
      QuietAfterCapture(t, interval, times[1..]);
    }
  }
}
