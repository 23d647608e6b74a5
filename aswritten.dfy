/** The score computation as the dashboard performs it, with NumPy
    float64's NaN and infinities: dividing by a zero range yields NaN or an
    infinity instead of an error, and every comparison with NaN is false.
    Finite values are exact reals, as in the rest of the model. */
module AsWritten {
  import opened Outcomes
  import opened Cohort
  import opened Scoring
  import opened Rounding
  import opened Tiers
  import opened Assessment

  /** The float64 values the division can produce. */
  datatype Float = Finite(x: real) | NaN | Infinity(positive: bool)

  /** `score >= bound` on a float64 score. */
  predicate AtLeast(score: Float, bound: real) {
    match score
    case Finite(x) => x >= bound
    case NaN => false
    case Infinity(positive) => positive
  }

  /** `(target - min) / (max - min)` then `round(float(.), 3)`, with no guard
      on the range: 0/0 is NaN, a non-zero numerator over 0 an infinity, and
      rounding leaves both unchanged. */
  function ScoreAsWritten(target: real, scores: seq<real>): (r: Result<Float>)
    ensures r.Failure? <==> |scores| == 0
    ensures r.Success? && r.value.Finite? ==> IsThousandths(r.value.x)
  {
    if |scores| == 0 then Failure(EmptyPeerScores)
    else
      var lo, hi := SeqMin(scores), SeqMax(scores);
      if hi != lo then Success(Finite(RoundToThousandths(Rescale(target, lo, hi))))
      else if target == lo then Success(NaN)
      else Success(Infinity(target > lo))
  }

  /** The if/elif/else chain applied to a float64 score. */
  function ClassifyAsWritten(score: Float, threshold: real): (tier: RiskTier)
    ensures tier == High <==> AtLeast(score, threshold)
    ensures score.Finite? ==> tier == Classify(score.x, threshold)
  {
    if AtLeast(score, threshold) then High
    else if AtLeast(score, threshold * MediumBandFactor) then Medium
    else Low
  }

  /** The tier the dashboard displays for a selection, as written. */
  function TierAsWritten(rows: seq<Row>, q: Query, decision: DecisionFunction): (r: Result<RiskTier>)
    ensures r.Failure? <==> Targets(rows, q) == []
  {
    var targets := Targets(rows, q);
    if targets == [] then Failure(NoTargetRow)
    else
      FirstTargetIsPeer(rows, q.industry, q.company, q.year);
      var peers := Peers(rows, q);
      var training := FeatureMatrix(peers);
      match ScoreAsWritten(RawScore(decision, training, targets[0]), PeerScores(decision, training, peers))
      case Failure(e) => Failure(e)
      case Success(score) => Success(ClassifyAsWritten(score, q.threshold))
  }

  /** Where the peer scores have a spread, the code as written and the
      guarded model agree on the score and on the tier. */
  lemma AsWrittenAgreesWhenNonDegenerate(target: real, scores: seq<real>)
    requires Normalize(target, scores).Success?
    ensures ScoreAsWritten(target, scores) == Success(Finite(RoundToThousandths(Normalize(target, scores).value)))
  {
  }

  /** End to end: wherever the guarded model produces a report, the
      dashboard as written shows the same tier. */
  lemma TierAsWrittenAgreesOnSuccess(rows: seq<Row>, q: Query, decision: DecisionFunction)
    requires Assess(rows, q, decision).Success?
    ensures TierAsWritten(rows, q, decision) == Success(Assess(rows, q, decision).value.tier)
  {
    var report := Assess(rows, q, decision).value;
    AsWrittenAgreesWhenNonDegenerate(report.rawScore, report.peerScores);
  }

  /** The discrepancy: when every peer gets the same raw score the division
      is 0/0, the score is NaN, and NaN fails both comparisons, so the row is
      shown as `low`, even under threshold 0, where every real score is
      `high`. The guarded model reports the degenerate cohort instead. */
  lemma DegenerateCohortReadsAsLow(target: real, scores: seq<real>, threshold: real)
    requires target in scores
    requires AllEqual(scores)
    ensures ScoreAsWritten(target, scores) == Success(NaN)
    ensures ClassifyAsWritten(NaN, threshold) == Low
    ensures Normalize(target, scores) == Failure(DegenerateCohort)
  {
    assert SeqMin(scores) == target;
  }

  /** End to end: whenever a selected company's cohort is degenerate, the
      dashboard as written shows it as `low` at every threshold, where the
      guarded model fails with a degenerate cohort. */
  lemma DegenerateSelectionShownAsLow(rows: seq<Row>, q: Query, decision: DecisionFunction)
    requires Targets(rows, q) != []
    requires AllEqual(CohortScores(rows, q, decision))
    ensures TierAsWritten(rows, q, decision) == Success(Low)
    ensures Assess(rows, q, decision) == Failure(DegenerateCohort)
  {
    var targets, peers := Targets(rows, q), Peers(rows, q);
    FirstTargetIsPeer(rows, q.industry, q.company, q.year);
    var training := FeatureMatrix(peers);
    var scores := PeerScores(decision, training, peers);
    var raw := RawScore(decision, training, targets[0]);
    PeerRowScoreIsPeerScore(decision, training, peers, targets[0]);
    DegenerateCohortReadsAsLow(raw, scores, q.threshold);
  }

  /** A concrete input: two companies of one industry and year with
      identical ratios get identical raw scores from any fitted model, so the
      selected one is shown as `low` risk even at threshold 0, where the
      guarded model reports a degenerate cohort. */
  lemma IdenticalPeersShownAsLow(decision: DecisionFunction, industry: string, company: string, other: string, year: int)
    ensures var ratios := FeatureVector(0.1, 0.1, 0.05, 0.1);
            var rows := [Row(industry, company, year, ratios), Row(industry, other, year, ratios)];
            var q := Query(industry, company, year, 0.0);
            TierAsWritten(rows, q, decision) == Success(Low)
            && Assess(rows, q, decision) == Failure(DegenerateCohort)
  {
    var ratios := FeatureVector(0.1, 0.1, 0.05, 0.1);
    var first, second := Row(industry, company, year, ratios), Row(industry, other, year, ratios);
    var rows := [first, second];
    var q := Query(industry, company, year, 0.0);
    assert first in rows && IsTarget(first, industry, company, year);
    assert Targets(rows, q) != [];
    assert Peers(rows, q) == rows by {
      assert rows[1..] == [second] && [second][1..] == [];
      assert PeerRows([second], industry, year) == [second] + [];
    }
    var training := FeatureMatrix(rows);
    var raw := RawScore(decision, training, first);
    assert CohortScores(rows, q, decision) == [raw, raw];
    DegenerateSelectionShownAsLow(rows, q, decision);
  }
}
