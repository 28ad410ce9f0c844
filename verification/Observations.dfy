/** One fare observation, joined with the columns of its raw quote and job that later steps read. */
module Observations {
  import opened Options
  import opened Domain

  datatype QualityStatus = ELIGIBLE | ELIGIBLE_FLAGGED | EXCLUDED | MANUAL_REVIEW

  datatype QualityFlag =
    | DUPLICATE | SOURCE_CONFLICT | FARE_COMPONENT_MISMATCH | POSSIBLE_OUTLIER | MISSING_FARE
    | PARSER_ERROR | UNSUPPORTED_CURRENCY | UNSUPPORTED_CABIN | CONNECTING_FLIGHT
    | INCOMPLETE_FLIGHT_IDENTITY | UNAPPROVED_SOURCE | UNKNOWN_AIRPORT | ROUTE_MISMATCH
    | NEGATIVE_FARE | UNAVAILABLE_FARE | INVALID_TRAVEL_DATE | INVALID_BOOKING_WINDOW
    | DATA_CLASS_MISMATCH | SOURCE_MISMATCH

  /** Fares are whole paise, as the `Numeric(12, 2)` columns hold them.  Source identifiers and
      content hashes are only ever compared, so integers stand for their text order. */
  datatype Observation = Observation(
    source: int,
    hash: int,
    route: int,
    window: AdvanceWindow,
    identity: Option<int>,
    cabin: Option<string>,
    fareClass: Option<string>,
    currency: Option<string>,
    fare: Option<int>,
    included: bool,
    flags: seq<QualityFlag>,
    status: QualityStatus,
    score: Option<int>,
    reason: Option<seq<QualityFlag>>)

  /** Append a flag unless it is already there. */
  function WithFlag(o: Observation, flag: QualityFlag): (r: Observation)
    ensures flag in r.flags
  {
    if flag in o.flags then o else o.(flags := o.flags + [flag])
  }

  /** `max(0, (score or 100) - penalty)`: a missing score and a score of zero both count as 100. */
  function Penalised(score: Option<int>, penalty: int): Option<int> {
    var current := if score.None? || score.value == 0 then 100 else score.value;
    Some(if current - penalty < 0 then 0 else current - penalty)
  }
}
