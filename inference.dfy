/**
 The pure parts of `predict` and `mockPrediction`
 (src/services/modelService.ts:68-113): decoding the raw score the model
 returns, the random fallback result, and the decision which of the two a
 prediction returns. Scores and confidences are reals, not IEEE doubles;
 the two `Math.random()` draws of the fallback are parameters.
 */
module Inference {
  import opened Detection

  /** The decision threshold on the raw PNEUMONIA score. */
  const Threshold: real := 0.5

  /** What preprocessing plus inference produced: the first output value, or an exception.
      `predict` reads that first value as the PNEUMONIA score, although the comment beside
      it in the source names index 0 NORMAL; `Score` follows the code. */
  datatype InferenceOutcome = Score(value: real) | Threw

  /** Decoding a raw score: the class of the score's side of the threshold
      (a tie goes to NORMAL), reported with the probability of that class. */
  function Decode(score: real): (r: DetectionResult)
    ensures r.prediction == Pneumonia <==> score > Threshold
    ensures r.confidence == ClassProbability(score, r.prediction)
    ensures r.confidence >= ClassProbability(score, Other(r.prediction))
    ensures r.heatmap.None?
  {
    DetectionResult(if score > Threshold then Pneumonia else Normal,
                    if score > Threshold then score else 1.0 - score,
                    None)
  }

  /** The larger of two reals. */
  function Max(a: real, b: real): (m: real)
  {
    if a >= b then a else b
  }

  /** The reported confidence is the larger of the two class probabilities, never below one half. */
  lemma DecodeConfidenceIsMax(score: real)
    ensures Decode(score).confidence == Max(score, 1.0 - score)
    ensures Decode(score).confidence >= 0.5
  {
  }

  /** A score that is a probability decodes to a confidence in [0.5, 1]. */
  lemma DecodeConfidenceRange(score: real)
    requires 0.0 <= score <= 1.0
    ensures 0.5 <= Decode(score).confidence <= 1.0
    ensures WellFormed(Decode(score))
  {
  }

  /** The boundary: a score of exactly one half is NORMAL with confidence one half. */
  lemma DecodeAtThreshold()
    ensures Decode(0.5) == DetectionResult(Normal, 0.5, None)
  {
  }

  /** The reference reading of a decoded result: it names the class with the larger
      probability, NORMAL on a tie, states that class's probability and has no heatmap. */
  ghost predicate DescribesScore(score: real, r: DetectionResult)
  {
    && r.confidence == ClassProbability(score, r.prediction)
    && ClassProbability(score, r.prediction) >= ClassProbability(score, Other(r.prediction))
    && (ClassProbability(score, r.prediction) == ClassProbability(score, Other(r.prediction)) ==> r.prediction == Normal)
    && r.heatmap.None?
  }

  /** `Decode` is exactly the reference reading: it gives the one result that describes the score. */
  lemma DecodeIsTheDescription(score: real, r: DetectionResult)
    ensures DescribesScore(score, r) <==> r == Decode(score)
  {
    if DescribesScore(score, r) {
      if r.prediction == Pneumonia {
        assert score >= 1.0 - score;
        assert score != 1.0 - score;
      } else {
        assert 1.0 - score >= score;
      }
    }
  }

  /** On the decode step, a score of 0.82 is PNEUMONIA with confidence 0.82. */
  lemma DecodeHighScore()
    ensures Decode(0.82) == DetectionResult(Pneumonia, 0.82, None)
  {
  }

  /** On the decode step, a score of 0.10 is NORMAL with confidence 0.90. */
  lemma DecodeLowScore()
    ensures Decode(0.10) == DetectionResult(Normal, 0.90, None)
  {
  }

  /** The fallback result from two draws: the class from the first, the confidence
      scaled from the second into [0.7, 0.95). */
  function MockPrediction(r1: real, r2: real): (r: DetectionResult)
    ensures r.prediction == Pneumonia <==> r1 > 0.5
    ensures 0.0 <= r2 < 1.0 ==> 0.7 <= r.confidence < 0.95
    ensures r.heatmap.None?
  {
    DetectionResult(if r1 > 0.5 then Pneumonia else Normal, 0.7 + r2 * 0.25, None)
  }

  /** The confidence moves with the second draw: larger draws give strictly larger confidences. */
  lemma MockConfidenceIncreasing(r1: real, r2: real, r1': real, r2': real)
    requires r2 < r2'
    ensures MockPrediction(r1, r2).confidence < MockPrediction(r1', r2').confidence
  {
  }

  /** Every class and every confidence in [0.7, 0.95) is reached by some pair of draws in [0, 1). */
  lemma MockReachesEveryResult(p: Prediction, c: real)
    requires 0.7 <= c < 0.95
    ensures var r1 := if p == Pneumonia then 0.75 else 0.25;
            var r2 := (c - 0.7) * 4.0;
            && 0.0 <= r1 < 1.0 && 0.0 <= r2 < 1.0
            && MockPrediction(r1, r2) == DetectionResult(p, c, None)
  {
  }

  /** The fallback is well formed for every pair of draws in [0, 1). */
  lemma MockWellFormed(r1: real, r2: real)
    requires 0.0 <= r2 < 1.0
    ensures WellFormed(MockPrediction(r1, r2))
  {
  }

  /** The decision tree of `predict` once readiness is known: the fallback when the model
      is not ready or absent or when inference throws, the decoded score otherwise. */
  function Decide(ready: bool, modelHeld: bool, inference: InferenceOutcome, r1: real, r2: real): (r: DetectionResult)
    ensures !ready || !modelHeld || inference.Threw? ==> r == MockPrediction(r1, r2)
    ensures ready && modelHeld && inference.Score? ==> r == Decode(inference.value)
  {
    if !ready || !modelHeld then MockPrediction(r1, r2)
    else match inference
      case Threw => MockPrediction(r1, r2)
      case Score(s) => Decode(s)
  }

  /** `predict` always yields a well-formed result: whichever branch runs, the draws lie
      in [0, 1) and a score the model returns is a probability. */
  lemma DecideWellFormed(ready: bool, modelHeld: bool, inference: InferenceOutcome, r1: real, r2: real)
    requires 0.0 <= r2 < 1.0
    requires inference.Score? ==> 0.0 <= inference.value <= 1.0
    ensures WellFormed(Decide(ready, modelHeld, inference, r1, r2))
    ensures Decide(ready, modelHeld, inference, r1, r2).confidence >= 0.5
  {
  }
}
