/** The three-band risk classification of a normalised score against the
    user's sensitivity threshold. */
module Tiers {

  datatype RiskTier = Low | Medium | High {
    /** The order low < medium < high. */
    function Rank(): nat {
      match this
      case Low => 0
      case Medium => 1
      case High => 2
    }
  }

  /** The fraction of the threshold at which the medium band starts. */
  const MediumBandFactor: real := 0.7

  /** The threshold the sidebar slider can deliver: 0.0 to 1.0. */
  predicate SliderThreshold(threshold: real) {
    0.0 <= threshold <= 1.0
  }

  /** `high` at or above the threshold, `medium` from 0.7 of the threshold up
      to it, `low` below both. */
  function Classify(score: real, threshold: real): (tier: RiskTier)
    ensures tier == High <==> score >= threshold
    ensures tier == Medium <==> threshold * MediumBandFactor <= score < threshold
    ensures tier == Low <==> score < threshold && score < threshold * MediumBandFactor
  {
    if score >= threshold then High
    else if score >= threshold * MediumBandFactor then Medium
    else Low
  }

  /** For a slider threshold the medium band lies just below the high band,
      so `low` is exactly the scores below 0.7 of the threshold. */
  lemma BandsOrdered(score: real, threshold: real)
    requires SliderThreshold(threshold)
    ensures threshold * MediumBandFactor <= threshold
    ensures Classify(score, threshold) == Low <==> score < threshold * MediumBandFactor
  {
  }

  /** A higher score never gets a lower tier. */
  lemma ClassifyMonotoneInScore(lower: real, higher: real, threshold: real)
    requires lower <= higher
    ensures Classify(lower, threshold).Rank() <= Classify(higher, threshold).Rank()
  {
  }

  /** Raising the threshold never raises the tier of a given score. */
  lemma ClassifyAntitoneInThreshold(score: real, lower: real, higher: real)
    requires lower <= higher
    ensures Classify(score, higher).Rank() <= Classify(score, lower).Rank()
  {
  }

  /** With the threshold at 0 the medium band is empty and every
      non-negative score is `high`. */
  lemma ZeroThresholdIsAllHigh(score: real)
    ensures Classify(score, 0.0) != Medium
    ensures score >= 0.0 ==> Classify(score, 0.0) == High
  {
  }

  /** With the threshold at 1, a score in [0, 1] is `high` only at 1. */
  lemma UnitThresholdHighOnlyAtOne(score: real)
    requires score <= 1.0
    ensures Classify(score, 1.0) == High <==> score == 1.0
  {
  }

  /** A score of 0.5 under three slider positions. */
  lemma HalfScoreExamples()
    ensures Classify(0.5, 0.4) == High
    ensures Classify(0.5, 0.7) == Medium
    ensures Classify(0.5, 0.8) == Low
  {
  }
}
