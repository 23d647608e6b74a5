/** Failures of the risk-scoring path, and the result type that carries them. */
module Outcomes {

  /** Why no risk score could be produced. */
  datatype RiskError =
    | NoTargetRow       // the industry/company/year selection matched no row, so `[0]` fails
    | EmptyPeerScores   // `min`/`max` of an empty score array
    | DegenerateCohort  // every peer has the same score: the min-max range is zero

  datatype Result<+T> = Success(value: T) | Failure(error: RiskError)
}
