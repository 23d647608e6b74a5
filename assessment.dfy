/** The scoring path end to end: select the cohort, fit and score, normalise
    against the peers, round, classify. */
module Assessment {
  import opened Outcomes
  import opened Cohort
  import opened Scoring
  import opened Rounding
  import opened Tiers

  /** The sidebar selections. */
  datatype Query = Query(industry: string, company: string, year: int, threshold: real)

  /** What the dashboard shows: the target's raw score, its rounded
      normalised score, the tier, and the peer scores it was normalised against. */
  datatype Report = Report(rawScore: real, score: real, tier: RiskTier, peerScores: seq<real>)

  function Targets(rows: seq<Row>, q: Query): seq<Row> {
    TargetRows(rows, q.industry, q.company, q.year)
  }

  function Peers(rows: seq<Row>, q: Query): seq<Row> {
    PeerRows(rows, q.industry, q.year)
  }

  /** The peer scores, from a model fitted on the peers' ratio columns. */
  function CohortScores(rows: seq<Row>, q: Query, decision: DecisionFunction): seq<real> {
    var peers := Peers(rows, q);
    PeerScores(decision, FeatureMatrix(peers), peers)
  }

  /** Scores the first target row against its peer cohort and classifies it.
      Fails when no row matches the selection and when the peers' scores
      have no spread. */
  function Assess(rows: seq<Row>, q: Query, decision: DecisionFunction): (r: Result<Report>)
    ensures r == Failure(NoTargetRow) <==> forall row :: row in rows ==> !IsTarget(row, q.industry, q.company, q.year)
    ensures r.Failure? ==> r.error == NoTargetRow || r.error == DegenerateCohort
    ensures r.Success? ==> r.value.tier == Classify(r.value.score, q.threshold)
    ensures r.Success? ==> IsThousandths(r.value.score)
    ensures r.Success? ==>
      && Targets(rows, q) != []
      && r.value.rawScore == RawScore(decision, FeatureMatrix(Peers(rows, q)), Targets(rows, q)[0])
      && r.value.peerScores == CohortScores(rows, q, decision)
      && Normalize(r.value.rawScore, r.value.peerScores).Success?
      && r.value.score == RoundToThousandths(Normalize(r.value.rawScore, r.value.peerScores).value)
  {
    var targets, peers := Targets(rows, q), Peers(rows, q);
    if targets == [] then
      assert forall row :: row in rows ==> !IsTarget(row, q.industry, q.company, q.year) by {
        forall row | row in rows ensures !IsTarget(row, q.industry, q.company, q.year) {
          assert row !in targets;
        }
      }
      Failure(NoTargetRow)
    else
      assert targets[0] in targets;
      FirstTargetIsPeer(rows, q.industry, q.company, q.year);
      var training := FeatureMatrix(peers);
      var scores := PeerScores(decision, training, peers);
      var raw := RawScore(decision, training, targets[0]);
      match Normalize(raw, scores)
      case Failure(e) => Failure(e)
      case Success(v) =>
        var score := RoundToThousandths(v);
        Success(Report(raw, score, Classify(score, q.threshold), scores))
  }

  /** The target's raw score is one of the peer scores (the model is trained
      peer-inclusively), so the reported score lies in [0, 1]. */
  lemma AssessScoreInUnitInterval(rows: seq<Row>, q: Query, decision: DecisionFunction)
    requires Assess(rows, q, decision).Success?
    ensures Assess(rows, q, decision).value.rawScore in Assess(rows, q, decision).value.peerScores
    ensures Assess(rows, q, decision).value.peerScores == CohortScores(rows, q, decision)
    ensures 0.0 <= Assess(rows, q, decision).value.score <= 1.0
  {
    var targets, peers := Targets(rows, q), Peers(rows, q);
    FirstTargetIsPeer(rows, q.industry, q.company, q.year);
    var training := FeatureMatrix(peers);
    var scores := PeerScores(decision, training, peers);
    var raw := RawScore(decision, training, targets[0]);
    PeerRowScoreIsPeerScore(decision, training, peers, targets[0]);
    NormalizedInUnitInterval(raw, scores);
    RoundKeepsUnitInterval(Normalize(raw, scores).value);
  }

  /** Once a target row exists, the only failure is a cohort whose rows all
      get the same raw score. */
  lemma DegenerateCohortIff(rows: seq<Row>, q: Query, decision: DecisionFunction)
    requires exists row :: row in rows && IsTarget(row, q.industry, q.company, q.year)
    ensures Assess(rows, q, decision) == Failure(DegenerateCohort) <==> AllEqual(CohortScores(rows, q, decision))
    ensures Assess(rows, q, decision).Success? <==> !AllEqual(CohortScores(rows, q, decision))
  {
    var row :| row in rows && IsTarget(row, q.industry, q.company, q.year);
    assert row in Targets(rows, q);
    FirstTargetIsPeer(rows, q.industry, q.company, q.year);
  }

  /** A company that is alone in its industry and year cannot be scored:
      its cohort has a single score and therefore no range. */
  lemma SinglePeerCohortIsDegenerate(rows: seq<Row>, q: Query, decision: DecisionFunction)
    requires exists row :: row in rows && IsTarget(row, q.industry, q.company, q.year)
    requires |Peers(rows, q)| == 1
    ensures Assess(rows, q, decision) == Failure(DegenerateCohort)
  {
    DegenerateCohortIff(rows, q, decision);
  }

  /** The cohort's most anomalous row scores 1.000 and is `high` under every
      slider threshold. */
  lemma TargetAtPeerMaximumIsHigh(rows: seq<Row>, q: Query, decision: DecisionFunction)
    requires SliderThreshold(q.threshold)
    requires Assess(rows, q, decision).Success?
    requires forall x :: x in CohortScores(rows, q, decision) ==> x <= Assess(rows, q, decision).value.rawScore
    ensures Assess(rows, q, decision).value.score == 1.0
    ensures Assess(rows, q, decision).value.tier == High
  {
    var report := Assess(rows, q, decision).value;
    AssessScoreInUnitInterval(rows, q, decision);
    NormalizedInUnitInterval(report.rawScore, report.peerScores);
    RoundExact(1.0);
  }

  /** The cohort's least anomalous row scores 0.000: `low` under every
      positive threshold, `high` under threshold 0. */
  lemma TargetAtPeerMinimumIsLow(rows: seq<Row>, q: Query, decision: DecisionFunction)
    requires SliderThreshold(q.threshold)
    requires Assess(rows, q, decision).Success?
    requires forall x :: x in CohortScores(rows, q, decision) ==> Assess(rows, q, decision).value.rawScore <= x
    ensures Assess(rows, q, decision).value.score == 0.0
    ensures Assess(rows, q, decision).value.tier == if q.threshold == 0.0 then High else Low
  {
    var report := Assess(rows, q, decision).value;
    AssessScoreInUnitInterval(rows, q, decision);
    NormalizedInUnitInterval(report.rawScore, report.peerScores);
    RoundExact(0.0);
  }

  /** Between two companies of the same cohort, the one with the higher raw
      score never gets the lower tier. */
  lemma TierFollowsRawScore(rows: seq<Row>, q1: Query, q2: Query, decision: DecisionFunction)
    requires q1.industry == q2.industry && q1.year == q2.year && q1.threshold == q2.threshold
    requires Assess(rows, q1, decision).Success? && Assess(rows, q2, decision).Success?
    requires Assess(rows, q1, decision).value.rawScore <= Assess(rows, q2, decision).value.rawScore
    ensures Assess(rows, q1, decision).value.score <= Assess(rows, q2, decision).value.score
    ensures Assess(rows, q1, decision).value.tier.Rank() <= Assess(rows, q2, decision).value.tier.Rank()
  {
    var r1, r2 := Assess(rows, q1, decision).value, Assess(rows, q2, decision).value;
    assert Peers(rows, q1) == Peers(rows, q2);
    assert r1.peerScores == r2.peerScores;
    NormalizeMonotone(r1.rawScore, r2.rawScore, r1.peerScores);
    RoundMonotone(Normalize(r1.rawScore, r1.peerScores).value, Normalize(r2.rawScore, r2.peerScores).value);
    ClassifyMonotoneInScore(r1.score, r2.score, q1.threshold);
  }
}
