/**
 * The request validator in front of report generation
 * (backend/middlewares/validator.js): two field chains and the final
 * middleware that either answers 400 or passes control on.
 */
module Validator {
  import opened Wrappers

  /** The two body fields, as sent; a missing field is the empty string. */
  datatype ReportRequest = ReportRequest(startDate: string, endDate: string)

  /** One entry of `errors.array()`: the field and its message. */
  datatype FieldError = FieldError(path: string, msg: string)

  /**
   * What the final middleware does: answer 400, or call `next()` with the
   * body fields as the `toDate()` sanitizer left them (`None` for `null`).
   */
  datatype Decision = Respond400(errors: seq<FieldError>) | Next(startDate: Option<Date>, endDate: Option<Date>)

  const StartDateMessage: string := "Start date must be a valid ISO 8601 date."
  const EndDateMessage: string := "End date must be a valid ISO 8601 date."
  const DateOrderMessage: string := "End date must be after start date."

  /**
   * `new Date(v)` applied to a value the `toDate()` sanitizer produced:
   * the sanitizer yields `null` for an unparseable string, and
   * `new Date(null)` is the epoch.
   */
  function AsDate(v: Option<Date>): (d: Date)
    ensures v.Some? ==> d == v.value
    ensures v.None? ==> d == 0
  {
    ValueOr(v, 0)
  }

  /**
   * The errors both chains collect, in chain order. Each chain runs all of
   * its checks, so the date-order check runs even after an ISO 8601 failure.
   * `isIso` is the `isISO8601()` check and `toDate` the sanitizer, both
   * supplied by the validation library.
   */
  function ValidationErrors(req: ReportRequest, isIso: string -> bool, toDate: string -> Option<Date>)
    : (errs: seq<FieldError>)
    ensures FieldError("startDate", StartDateMessage) in errs <==> !isIso(req.startDate)
    ensures FieldError("endDate", EndDateMessage) in errs <==> !isIso(req.endDate)
    ensures FieldError("endDate", DateOrderMessage) in errs
            <==> AsDate(toDate(req.endDate)) < AsDate(toDate(req.startDate))
    ensures forall e :: e in errs ==> e in [FieldError("startDate", StartDateMessage),
                                            FieldError("endDate", EndDateMessage),
                                            FieldError("endDate", DateOrderMessage)]
  {
    var startErrors := if isIso(req.startDate) then [] else [FieldError("startDate", StartDateMessage)];
    var endIsoErrors := if isIso(req.endDate) then [] else [FieldError("endDate", EndDateMessage)];
    var orderErrors := if AsDate(toDate(req.endDate)) < AsDate(toDate(req.startDate))
                       then [FieldError("endDate", DateOrderMessage)] else [];
    startErrors + endIsoErrors + orderErrors
  }

  /**
   * `validateReportRequest`: any collected error means a 400 carrying the
   * whole list and no call to `next()`; otherwise `next()` runs with the
   * sanitized fields, both of which passed the ISO 8601 check and which
   * compare in order as dates.
   */
  function ValidateReportRequest(req: ReportRequest, isIso: string -> bool, toDate: string -> Option<Date>)
    : (d: Decision)
    ensures d.Respond400? <==> ValidationErrors(req, isIso, toDate) != []
    ensures d.Respond400? ==> d.errors == ValidationErrors(req, isIso, toDate)
    ensures d.Next? ==> && isIso(req.startDate) && isIso(req.endDate)
                        && d.startDate == toDate(req.startDate)
                        && d.endDate == toDate(req.endDate)
                        && AsDate(d.startDate) <= AsDate(d.endDate)
  {
    var errs := ValidationErrors(req, isIso, toDate);
    if errs != [] then Respond400(errs)
    else
      assert FieldError("startDate", StartDateMessage) !in errs;
      assert FieldError("endDate", EndDateMessage) !in errs;
      assert FieldError("endDate", DateOrderMessage) !in errs;
      Next(toDate(req.startDate), toDate(req.endDate))
  }

  /** An end date before the start date is always refused with the order message. */
  lemma EndBeforeStartRejected(req: ReportRequest, isIso: string -> bool, toDate: string -> Option<Date>)
    requires AsDate(toDate(req.endDate)) < AsDate(toDate(req.startDate))
    ensures ValidateReportRequest(req, isIso, toDate).Respond400?
    ensures FieldError("endDate", DateOrderMessage) in ValidateReportRequest(req, isIso, toDate).errors
  {
  }

  /** The comparison is strict: two valid, equal dates pass. */
  lemma SameDayAccepted(req: ReportRequest, isIso: string -> bool, toDate: string -> Option<Date>)
    requires isIso(req.startDate) && isIso(req.endDate)
    requires AsDate(toDate(req.endDate)) == AsDate(toDate(req.startDate))
    ensures ValidateReportRequest(req, isIso, toDate) == Next(toDate(req.startDate), toDate(req.endDate))
  {
  }
}
