# Peer-relative RPT risk scoring — a Dafny model

This project models the risk-scoring path of the related-party-transaction
(RPT) dashboard in `app.py`. The user picks an industry, a company, a
financial year and a sensitivity threshold. The dashboard then does four
things:

1. It selects the *target* rows (industry, company and year) and the *peer*
   rows (industry and year only).
2. It fits an isolation forest on the peers' four RPT ratio columns. It then
   scores every peer and the first target row with the negated decision
   function, so that higher means more anomalous.
3. It min-max rescales the target's raw score against the peer scores and
   rounds the result to three decimals.
4. It classifies the score as `high` (at or above the threshold), `medium`
   (from 0.7 of the threshold up to it) or `low`.

All of this is pure, so the model is written as functions and lemmas, one
module per stage:

- `Outcomes`: the failure cases and the result type.
- `Cohort`: rows, the two selections and the training matrix.
- `Scoring`: raw scores, minimum and maximum, normalisation.
- `Rounding`: `round(x, 3)`.
- `Tiers`: the three bands.
- `Assessment`: the whole path.
- `AsWritten`: the unguarded float64 division, kept for the finding below.

The isolation forest is a library call. It is modelled as a parameter of type
`DecisionFunction`: the decision value, at a feature vector, of a model fitted
on a given training matrix. Being a function, it is deterministic: the same
features and the same training data always give the same score. Its
signature also fixes that a row's decision value depends only on that row's
features and on the training matrix, never on the other rows scored in the
same call. This holds for the isolation forest's per-sample scoring, and it
is why the target scored on its own (app.py:154) gets the same value as its
entry in the peer batch (app.py:153). Arithmetic is over Dafny's `real`.

Where the code's behaviour is doubtful, the model handles it as follows:

- The code has no "insufficient data" failure of its own. A company alone
  in its industry and year reaches the division with a zero range, like any
  other cohort whose peers all score alike.
- The code does not check for a zero score range. `Scoring.Normalize` and
  `Assessment.Assess` are the corrected model: they return
  `DegenerateCohort` there. `AsWritten.ScoreAsWritten` and
  `AsWritten.TierAsWritten` follow the code as written: 0/0 gives NaN and
  the row is shown `low` (see the Findings row).
- When no row matches the selection, the code fails when it indexes the
  empty selection with `[0]`. The model returns `NoTargetRow`.

At threshold 1, `high` is nearly unreachable except at the cohort maximum.
Because of the rounding, every normalised score from 0.9995 up is shown as
1.000 and so is `high` at threshold 1 (`Rounding.RoundsToOne`).

## Model

| member | source | states |
|---|---|---|
| `Cohort.TargetRows` | app.py:99-103 | a row appears in the target selection, with its full multiplicity, exactly when it matches industry, company and year |
| `Cohort.PeerRows` | app.py:105-108 | a row appears in the peer selection, with its full multiplicity, exactly when it matches industry and year |
| `Cohort.PeerRowsAppend` | app.py:105-108 | the peer selection keeps dataset order: selecting from two consecutive parts and joining the results equals selecting from the whole |
| `Cohort.TargetRowsAppend` | app.py:99-103 | the target selection keeps dataset order in the same sense |
| `Cohort.FirstTargetIsFirstMatch` | app.py:99-103 | the first target row is the first dataset row matching industry, company and year |
| `Cohort.CompanyRows` | app.py:99-108 | narrowing rows to one company keeps exactly that company's rows, with multiplicity |
| `Cohort.TargetRowsArePeerRows` | app.py:99-108 | the target selection equals the peer selection narrowed to the company |
| `Cohort.TargetRowsSubMultiset` | app.py:99-108 | the target rows are a sub-multiset of the peer rows |
| `Cohort.FirstTargetIsPeer` | app.py:99-108 | when a target row exists, the first target row is a peer row and the peers are at least as many as the targets |
| `Cohort.FeatureMatrix` | app.py:138-143 | the training matrix has one feature vector per row, namely that row's four RPT ratios |
| `Scoring.RawScoreReversesDecision` | app.py:153-154 | negating the decision value reverses its order, so the row the model finds more normal gets the lower raw score; rows with equal features get equal raw scores |
| `Scoring.PeerScores` | app.py:151-153 | one raw score per peer row, position by position, from the model fitted on the given training matrix (`Assessment.CohortScores` fits it on the peers) |
| `Scoring.PeerRowScoreIsPeerScore` | app.py:151-154 | any cohort row scored by the same fitted model with the same negation gets one of the peer scores |
| `Scoring.SeqMin` | app.py:156 | the minimum is an element and is at most every element |
| `Scoring.SeqMax` | app.py:156 | the maximum is an element and is at least every element |
| `Scoring.Normalize` | app.py:156 | fails on empty scores; fails with `DegenerateCohort` exactly when all scores are equal; succeeds exactly when two scores differ |
| `Scoring.Rescale` | app.py:156 | the min-max quotient times the range width gives back the target's distance from the minimum |
| `Scoring.RescaleBounds` | app.py:156 | a value within [lo, hi] rescales into [0, 1]; it gives 0 only at lo and 1 only at hi |
| `Scoring.RescaleMonotone` | app.py:156 | rescaling preserves order |
| `Scoring.NormalizedInUnitInterval` | app.py:156 | for a target among the peer scores, the normalised score is in [0, 1]; it is 0 exactly at the peer minimum and 1 exactly at the peer maximum |
| `Scoring.NormalizeMonotone` | app.py:156 | a higher raw score never normalises lower |
| `Rounding.NearestThousandths` | app.py:157 | the chosen count of thousandths is within one half of 1000·x |
| `Rounding.RoundToThousandths` | app.py:157 | the result is a whole number of thousandths within 0.0005 of the input |
| `Rounding.RoundMonotone` | app.py:157 | rounding preserves order |
| `Rounding.RoundExact` | app.py:157 | a whole number of thousandths rounds to itself |
| `Rounding.RoundKeepsUnitInterval` | app.py:157 | rounding maps [0, 1] into [0, 1] |
| `Rounding.RoundIdempotent` | app.py:157 | rounding twice is rounding once |
| `Rounding.RoundsToOne` | app.py:157 | at or below 1, a value rounds to 1.000 exactly when it is at least 0.9995 |
| `Rounding.RoundsToZero` | app.py:157 | at or above 0, a value rounds to 0.000 exactly when it is at most 0.0005 |
| `Tiers.Classify` | app.py:161-169 | `high` iff score ≥ threshold; `medium` iff 0.7·threshold ≤ score < threshold; `low` iff score is below both |
| `Tiers.BandsOrdered` | app.py:91-97 | for a threshold in [0, 1], 0.7·threshold ≤ threshold and `low` is exactly the scores below 0.7·threshold |
| `Tiers.ClassifyMonotoneInScore` | app.py:161-169 | the tier never goes down as the score goes up (low < medium < high) |
| `Tiers.ClassifyAntitoneInThreshold` | app.py:161-169 | the tier of a fixed score never goes up as the threshold goes up |
| `Tiers.ZeroThresholdIsAllHigh` | app.py:161-169 | at threshold 0 no score is `medium` and every non-negative score is `high` |
| `Tiers.UnitThresholdHighOnlyAtOne` | app.py:161-169 | at threshold 1, a score of at most 1 is `high` exactly when it equals 1 |
| `Tiers.HalfScoreExamples` | app.py:161-169 | a score of 0.5 is `high` at threshold 0.4, `medium` at 0.7 and `low` at 0.8 |
| `Assessment.Assess` | app.py:99-169 | fails with `NoTargetRow` exactly when no row matches the selection; the only other failure is `DegenerateCohort`; on success the raw score is the first target row's negated decision value under the model fitted on the peers, the peer scores are the cohort's scores, the score is that raw score min-max rescaled against them and rounded to thousandths, and the tier is the band of that score |
| `Assessment.AssessScoreInUnitInterval` | app.py:151-157 | on success, the target's raw score is one of the reported peer scores and the reported score lies in [0, 1] |
| `Assessment.DegenerateCohortIff` | app.py:156 | when a target row exists, the result is `DegenerateCohort` exactly when all peer scores are equal, and a report otherwise |
| `Assessment.SinglePeerCohortIsDegenerate` | app.py:105-108 | a company alone in its industry and year gets `DegenerateCohort` |
| `Assessment.TargetAtPeerMaximumIsHigh` | app.py:153-169 | the cohort's most anomalous row scores 1.000 and is `high` under every threshold in [0, 1] |
| `Assessment.TargetAtPeerMinimumIsLow` | app.py:153-169 | the cohort's least anomalous row scores 0.000; it is `low` under a positive threshold and `high` under threshold 0 |
| `Assessment.TierFollowsRawScore` | app.py:153-169 | of two companies in one cohort, the one with the higher raw score never gets a lower score or a lower tier |
| `AsWritten.ScoreAsWritten` | app.py:156-157 | the unguarded division fails only on empty scores; a finite result is a whole number of thousandths |
| `AsWritten.ClassifyAsWritten` | app.py:161-169 | `high` exactly when the float64 comparison with the threshold holds; on a finite score it agrees with `Tiers.Classify` |
| `AsWritten.TierAsWritten` | app.py:99-169 | the dashboard's tier fails exactly when no row matches the selection |
| `AsWritten.TierAsWrittenAgreesOnSuccess` | app.py:99-169 | wherever the guarded model gives a report, the dashboard as written shows the same tier |
| `AsWritten.AsWrittenAgreesWhenNonDegenerate` | app.py:156-157 | when the peer scores differ, the unguarded computation gives the same rounded score as `Scoring.Normalize` |
| `AsWritten.DegenerateCohortReadsAsLow` | app.py:156-169 | when all peer scores are equal, the unguarded division gives NaN and NaN is classified `low`; the guarded model reports `DegenerateCohort` |
| `AsWritten.DegenerateSelectionShownAsLow` | app.py:99-169 | for any selection with a degenerate cohort, the dashboard as written shows `low` and the guarded model fails |
| `AsWritten.IdenticalPeersShownAsLow` | app.py:99-169 | two companies with identical ratios in one industry and year: the selected one is shown `low` at threshold 0, and the guarded model reports `DegenerateCohort` |

## Findings

| source | as written | input that shows it | evidently intended | confidence | as-written member | corrected member |
|---|---|---|---|---|---|---|
| app.py:156-169 | the min-max division has no guard. When every peer has the same raw score, NumPy float64 computes 0/0 as NaN with only a runtime warning. NaN fails both tier comparisons, so the company is shown as `low` risk, even at threshold 0 | the selected company and one other company in the same industry and year, both with ratios (0.1, 0.1, 0.05, 0.1); threshold 0 | report that the peer cohort has no score spread, and show no tier | medium: not executed; relies on NumPy's default float64 division behaviour | `AsWritten.IdenticalPeersShownAsLow` | `Assessment.DegenerateCohortIff` |

## Left out

- Page configuration, CSS and the sidebar widgets (app.py:9-97), and the header (app.py:110-123). Only the slider's range [0, 1] is kept, as `Tiers.SliderThreshold`; its step of 0.05 plays no part in any property.
- Loading the CSV file (app.py:69): I/O. The dataset is a parameter `rows: seq<Row>`. A `Row` carries only the columns the scoring path reads.
- The company snapshot metrics (app.py:128-133): display only. Their failure on an empty selection is the same as the `[0]` failure, modelled as `NoTargetRow`.
- The isolation forest itself (app.py:145-151): its trees, its contamination of 0.15 and its seed of 42 belong to a foreign library. The fitted model is the uninterpreted `DecisionFunction`.
- IEEE-754 float64 arithmetic: the model uses exact reals. For example, `0.7` times the threshold is exact here. Python's `round` rounds the exact binary value of a float; the model rounds the exact real, ties to even.
- Missing or non-finite ratios: the isolation forest's input validation rejects them when the model is fitted (app.py:151), which makes the dashboard fail. The model's ratios are reals, so this library failure is not modelled.
- The charts, the melted and merged tables and the heatmap (app.py:174-309): presentation of library-computed values.
- The interpretation text chosen by tier (app.py:232-239, 311-316) and the raw-data expander (app.py:321-322): display only.
