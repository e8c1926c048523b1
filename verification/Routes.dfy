/**
 * The two report endpoints (backend/routes/analyticsRoutes.js): `POST /`
 * runs the validator and then report generation; `GET /history` runs the
 * history query. Saved reports are an in-memory sequence.
 */
module Routes {
  import opened Wrappers
  import opened Analytics
  import opened ReportModel
  import opened Validator

  /** The HTTP answers the endpoints give: 201, 400, 200 and 500. */
  datatype Response =
    | Created(report: Report)
    | BadRequest(errors: seq<FieldError>)
    | Ok(reports: seq<Report>)
    | ServerError(message: string)

  /** The message of the 500 answer of report generation. */
  const GenerationFailedMessage: string := "An internal server error occurred while generating the report."

  /**
   * `POST /`: a refused request is answered 400 with the validator's errors.
   * An accepted one generates a report over the sanitized range. When a
   * field passed the ISO 8601 check but `toDate()` made it `null`, `save()`
   * fails the schema's `required` check, the handler answers 500 and nothing
   * is saved. (The pipelines still run over the epoch in the source, but
   * their result is discarded.) Otherwise the report is saved and returned
   * with 201.
   */
  function PostReport(store: Store, saved: seq<Report>, req: ReportRequest,
                      isIso: string -> bool, toDate: string -> Option<Date>, id: Id, now: Date)
    : (out: (Response, seq<Report>))
    ensures ValidationErrors(req, isIso, toDate) != [] ==>
      out == (BadRequest(ValidationErrors(req, isIso, toDate)), saved)
    ensures ValidationErrors(req, isIso, toDate) == [] && (toDate(req.startDate).None? || toDate(req.endDate).None?) ==>
      out == (ServerError(GenerationFailedMessage), saved)
    ensures ValidationErrors(req, isIso, toDate) == [] && toDate(req.startDate).Some? && toDate(req.endDate).Some? ==>
      && toDate(req.startDate).value <= toDate(req.endDate).value
      && out.0 == Created(GenerateReport(store, id, toDate(req.startDate).value, toDate(req.endDate).value, now))
      && out.1 == saved + [out.0.report]
  {
    match ValidateReportRequest(req, isIso, toDate)
    case Respond400(errors) => (BadRequest(errors), saved)
    case Next(startDate, endDate) =>
      if RangeErrors(startDate, endDate) != [] then (ServerError(GenerationFailedMessage), saved)
      else
        var report := GenerateReport(store, id, startDate.value, endDate.value, now);
        (Created(report), saved + [report])
  }

  /** `GET /history`: the newest saved reports, newest first. */
  function GetHistory(saved: seq<Report>): (res: Response)
    ensures res == Ok(ReportHistory(saved))
    ensures |res.reports| <= HistoryLimit
    ensures forall x :: x in res.reports ==> x in saved
  {
    var r := ReportHistory(saved);
    assert forall x :: x in r ==> x in saved by {
      forall x | x in r ensures x in saved {
        assert x in multiset(r);
      }
    }
    Ok(r)
  }

  /**
   * A refused request reads no sales: its answer is the same whatever the
   * store holds.
   */
  lemma RefusedRequestIgnoresStore(store1: Store, store2: Store, saved: seq<Report>, req: ReportRequest,
                                   isIso: string -> bool, toDate: string -> Option<Date>, id: Id, now: Date)
    requires ValidationErrors(req, isIso, toDate) != []
    ensures PostReport(store1, saved, req, isIso, toDate, id, now) == PostReport(store2, saved, req, isIso, toDate, id, now)
  {
  }

  /**
   * A report generated later than every saved one is the first entry of the
   * history read right after it, field for field.
   */
  lemma PostThenHistory(store: Store, saved: seq<Report>, req: ReportRequest,
                        isIso: string -> bool, toDate: string -> Option<Date>, id: Id, now: Date)
    requires ValidationErrors(req, isIso, toDate) == []
    requires toDate(req.startDate).Some? && toDate(req.endDate).Some?
    requires forall x :: x in saved ==> x.generatedAt < now
    ensures var out := PostReport(store, saved, req, isIso, toDate, id, now);
      GetHistory(out.1).reports[0] == out.0.report
  {
    var out := PostReport(store, saved, req, isIso, toDate, id, now);
    NewestReportFirst(saved, out.0.report);
  }
}
