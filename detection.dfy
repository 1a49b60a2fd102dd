/** The per-frame detection result that the decision engine consumes.
    Only the fields the engine and its callers read are modelled; the
    per-descriptor score map and the inference latency are not. */
module Detection {

  datatype Option<+T> = None | Some(value: T)

  /** Classification label of one frame. */
  datatype ActivityStatus = Studying | NotStudying | Absent

  /** One frame's classification: the winning label, its confidence and the
      three independent category scores (sigmoid outputs, not a softmax). */
  datatype DetectionResult = DetectionResult(
    status: ActivityStatus,
    confidence: real,
    studyingScore: real,
    notStudyingScore: real,
    absentScore: real)

  /** Well-formed scorer output: the two scores the engine reads are not negative. */
  predicate ScoresNonNegative(result: DetectionResult) {
    result.studyingScore >= 0.0 && result.notStudyingScore >= 0.0
  }
}
