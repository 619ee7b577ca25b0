/**
 The result value handed back to the user interface for one chest X-ray
 (src/types/index.ts): a binary class, a confidence and an optional heatmap.
 */
module Detection {

  /** Stand-in for a value that may be null or absent. */
  datatype Option<+T> = None | Some(value: T)

  /** The two classes the detector reports. */
  datatype Prediction = Pneumonia | Normal

  /** A classification result; the heatmap is a base64-encoded image when present. */
  datatype DetectionResult = DetectionResult(prediction: Prediction, confidence: real, heatmap: Option<string>)

  /** The class that is not `p`. */
  function Other(p: Prediction): (q: Prediction)
    ensures q != p
  {
    if p == Pneumonia then Normal else Pneumonia
  }

  /** The probability a raw PNEUMONIA score assigns to class `p`. */
  function ClassProbability(score: real, p: Prediction): (prob: real)
  {
    if p == Pneumonia then score else 1.0 - score
  }

  /** A result the user interface can display: a confidence that is a probability. */
  predicate WellFormed(r: DetectionResult)
  {
    0.0 <= r.confidence <= 1.0
  }
}
