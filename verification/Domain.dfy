/** Enumerations and reference types shared by the pipeline (`domain/`). */
module Domain {

  datatype DataClass = LIVE | HISTORICAL | SYNTHETIC | RECORDED_DEMO

  datatype RunTrigger = SCHEDULED | MANUAL | BACKFILL | TEST

  datatype AdvanceWindow = T1 | T7 | T15 | T30 | T45 | OTHER

  datatype Route = Route(origin: string, destination: string)

  /** The source calls these PLANNED, RUNNING, COMPLETED, PARTIAL and FAILED; the names differ where
      a job status has the same one. */
  datatype RunStatus = PENDING | ACTIVE | COMPLETED | PARTIAL | ABORTED

  /** `WINDOW_DAYS` and `classify_advance_window`. */
  const WINDOW_DAYS := [1, 7, 15, 30, 45]

  function ClassifyWindow(days: int): AdvanceWindow {
    if days == 1 then T1 else if days == 7 then T7 else if days == 15 then T15
    else if days == 30 then T30 else if days == 45 then T45 else OTHER
  }
}
