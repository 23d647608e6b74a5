/** Raw anomaly scores from the fitted outlier model, and their min-max
    normalisation against the peer cohort. */
module Scoring {
  import opened Outcomes
  import opened Cohort

  /** The decision function of an outlier model fitted on the first argument,
      evaluated at the second: higher means more normal. The fitting itself
      (an isolation forest of 200 trees, contamination 0.15, seed 42) is a
      library call and stays uninterpreted; only its determinism is used. */
  type DecisionFunction = (seq<FeatureVector>, FeatureVector) -> real

  /** The raw anomaly score of one row: the negated decision value, so that
      higher means more anomalous. */
  function RawScore(decision: DecisionFunction, training: seq<FeatureVector>, row: Row): real {
    -decision(training, row.features)
  }

  /** Negation reverses the model's order: the row the model finds more
      normal gets the lower raw score, and rows with equal features get
      equal raw scores. */
  lemma RawScoreReversesDecision(decision: DecisionFunction, training: seq<FeatureVector>, a: Row, b: Row)
    ensures decision(training, a.features) <= decision(training, b.features)
        <==> RawScore(decision, training, b) <= RawScore(decision, training, a)
    ensures a.features == b.features ==> RawScore(decision, training, a) == RawScore(decision, training, b)
  {
  }

  /** The raw scores of every peer row, aligned with the peer rows by position. */
  function PeerScores(decision: DecisionFunction, training: seq<FeatureVector>, peers: seq<Row>): (scores: seq<real>)
    ensures |scores| == |peers|
    ensures forall i :: 0 <= i < |peers| ==> scores[i] == RawScore(decision, training, peers[i])
  {
    seq(|peers|, i requires 0 <= i < |peers| => RawScore(decision, training, peers[i]))
  }

  /** Any row of the cohort, scored by the same fitted model, gets one of the peer scores. */
  lemma {:induction false} PeerRowScoreIsPeerScore(decision: DecisionFunction, training: seq<FeatureVector>, peers: seq<Row>, row: Row)
    requires row in peers
    ensures RawScore(decision, training, row) in PeerScores(decision, training, peers)
  {
    var i :| 0 <= i < |peers| && peers[i] == row;
    assert PeerScores(decision, training, peers)[i] == RawScore(decision, training, row);
  }

  /** The smallest element of a non-empty sequence. */
  function SeqMin(s: seq<real>): (m: real)
    requires |s| > 0
    ensures m in s
    ensures forall i :: 0 <= i < |s| ==> m <= s[i]
  {
    if |s| == 1 then s[0]
    else
      var rest := SeqMin(s[1..]);
      assert forall i :: 1 <= i < |s| ==> s[i] == s[1..][i - 1];
      if s[0] <= rest then s[0] else rest
  }

  /** The largest element of a non-empty sequence. */
  function SeqMax(s: seq<real>): (m: real)
    requires |s| > 0
    ensures m in s
    ensures forall i :: 0 <= i < |s| ==> s[i] <= m
  {
    if |s| == 1 then s[0]
    else
      var rest := SeqMax(s[1..]);
      assert forall i :: 1 <= i < |s| ==> s[i] == s[1..][i - 1];
      if s[0] >= rest then s[0] else rest
  }

  /** All scores equal: the peer scores carry no spread to normalise against. */
  predicate AllEqual(s: seq<real>) {
    forall i, j :: 0 <= i < |s| && 0 <= j < |s| ==> s[i] == s[j]
  }

  /** Min-max rescaling of the target's raw score against the peer scores.
      Fails on an empty score array and on a zero score range, instead of
      dividing by zero. */
  function Normalize(target: real, scores: seq<real>): (r: Result<real>)
    ensures r == Failure(EmptyPeerScores) <==> |scores| == 0
    ensures r == Failure(DegenerateCohort) <==> |scores| > 0 && AllEqual(scores)
    ensures r.Success? <==> exists i, j :: 0 <= i < |scores| && 0 <= j < |scores| && scores[i] != scores[j]
  {
    if |scores| == 0 then Failure(EmptyPeerScores)
    else
      var lo, hi := SeqMin(scores), SeqMax(scores);
      if hi == lo then Failure(DegenerateCohort)
      else Success(Rescale(target, lo, hi))
  }

  /** Where `target` falls in the range [lo, hi], as a fraction of its width. */
  function Rescale(target: real, lo: real, hi: real): (r: real)
    requires lo < hi
    ensures r * (hi - lo) == target - lo
  {
    (target - lo) / (hi - lo)
  }

  /** Sign facts about scaling by a positive range (arithmetic helper). */
  lemma ScaleSign(q: real, d: real)
    requires d > 0.0
    ensures q < 0.0 ==> q * d < 0.0
    ensures q > 1.0 ==> q * d > d
    ensures q * d == 0.0 ==> q == 0.0
  {
  }

  lemma RescaleBounds(target: real, lo: real, hi: real)
    requires lo <= target <= hi && lo < hi
    ensures 0.0 <= Rescale(target, lo, hi) <= 1.0
    ensures Rescale(target, lo, hi) == 0.0 <==> target == lo
    ensures Rescale(target, lo, hi) == 1.0 <==> target == hi
  {
    var d := hi - lo;
    var q := (target - lo) / d;
    assert q * d == target - lo;
    ScaleSign(q, d);
  }

  lemma RescaleMonotone(a: real, b: real, lo: real, hi: real)
    requires a <= b && lo < hi
    ensures Rescale(a, lo, hi) <= Rescale(b, lo, hi)
  {
    var d := hi - lo;
    var qa, qb := (a - lo) / d, (b - lo) / d;
    assert qa * d == a - lo && qb * d == b - lo;
    assert (qa - qb) * d == a - b;
    ScaleSign(qa - qb, d);
  }

  /** For a target score drawn from the peer scores the normalised score lies
      in [0, 1]; it is 0 exactly at the peer minimum and 1 exactly at the
      peer maximum. */
  lemma NormalizedInUnitInterval(target: real, scores: seq<real>)
    requires target in scores
    requires Normalize(target, scores).Success?
    ensures 0.0 <= Normalize(target, scores).value <= 1.0
    ensures Normalize(target, scores).value == 0.0 <==> forall x :: x in scores ==> target <= x
    ensures Normalize(target, scores).value == 1.0 <==> forall x :: x in scores ==> x <= target
  {
    var lo, hi := SeqMin(scores), SeqMax(scores);
    RescaleBounds(target, lo, hi);
  }

  /** Normalisation preserves the order of raw scores: a more anomalous
      raw score never gets a smaller normalised score. */
  lemma NormalizeMonotone(a: real, b: real, scores: seq<real>)
    requires a <= b
    requires Normalize(a, scores).Success?
    ensures Normalize(b, scores).Success?
    ensures Normalize(a, scores).value <= Normalize(b, scores).value
  {
    RescaleMonotone(a, b, SeqMin(scores), SeqMax(scores));
  }
}
