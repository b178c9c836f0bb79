/** components/advanced.ts: the parameters each advanced report asks for,
    the request `generateReport` makes from the selection and the form, the
    empty-data test of the report views and the "directly related" column of
    the related-events report. */
module AdvancedReports {
  import opened Wrappers
  import opened Text
  import opened JsValues
  import opened Listings
  import Display

  /** The input a report shows: its element id, its caption and the value it
      starts with. */
  datatype ReportParam = ReportParam(inputId: string, caption: string, defaultValue: string)

  /** `updateReportParams` (lines 83-114): the three parametrised reports and
      their inputs; every other selection gets none. */
  function ReportParamFor(selected: string): (r: Option<ReportParam>)
    ensures r.Some? <==> selected in ParametrisedReports
  {
    if selected == "frequent-rules" then Some(ReportParam("min-alerts", "Minimum Alerts:", "5"))
    else if selected == "active-users" then Some(ReportParam("min-actions", "Minimum Actions:", "3"))
    else if selected == "related-events" then Some(ReportParam("alert-id", "Alert ID:", "1"))
    else None
  }

  const ParametrisedReports: seq<string> := ["frequent-rules", "active-users", "related-events"]

  /** Every report the selection offers. */
  const ReportTypes: seq<string> :=
    ["complex-event", "alert-summary", "high-traffic", "critical-events"] + ParametrisedReports

  /** The request a report makes; a number that `parseInt` cannot read is
      NaN, written None. */
  datatype ReportRequest =
    | ComplexEvent
    | AlertSummary
    | HighTraffic
    | CriticalEvents
    | FrequentRules(minAlerts: Option<int>)
    | ActiveUsers(minActions: Option<int>)
    | RelatedEvents(alertId: Option<int>)
    | InvalidReportType

  const InvalidReportMessage: string := "Invalid report type selected"

  /** `input?.value || fallback`: a missing input or an empty value gives the
      fallback. */
  function InputOr(value: Option<string>, fallback: string): (r: string)
    ensures r == fallback <==> value.None? || value.value == "" || value.value == fallback
  {
    if value.None? || value.value == "" then fallback else value.value
  }

  /** `generateReport` (lines 116-179): the selection picks the request, and
      the parametrised ones read their input, `inputValue` (None when the
      input is not on the page), falling back to '5', '3' or '1' before
      `parseInt`. */
  function GenerateReport(selected: string, inputValue: Option<string>): (r: ReportRequest)
    ensures r == InvalidReportType <==> selected !in ReportTypes
  {
    if selected == "complex-event" then ComplexEvent
    else if selected == "alert-summary" then AlertSummary
    else if selected == "high-traffic" then HighTraffic
    else if selected == "critical-events" then CriticalEvents
    else if selected == "frequent-rules" then FrequentRules(ParseInt(InputOr(inputValue, "5")))
    else if selected == "active-users" then ActiveUsers(ParseInt(InputOr(inputValue, "3")))
    else if selected == "related-events" then RelatedEvents(ParseInt(InputOr(inputValue, "1")))
    else InvalidReportType
  }

  /** The number a parametrised request carries. */
  function Parameter(r: ReportRequest): Option<int>
    requires r.FrequentRules? || r.ActiveUsers? || r.RelatedEvents?
  {
    match r
    case FrequentRules(n) => n
    case ActiveUsers(n) => n
    case RelatedEvents(n) => n
  }

  /** Exactly the reports that show an input carry a parameter. */
  lemma ParametrisedAgree(selected: string, inputValue: Option<string>)
    ensures var r := GenerateReport(selected, inputValue);
            ReportParamFor(selected).Some? <==> r.FrequentRules? || r.ActiveUsers? || r.RelatedEvents?
  {
  }

  /** The fallback of `generateReport` is the value the input starts with:
      whether the input is missing, empty or untouched, a parametrised report
      asks for the same number, 5, 3 or 1. */
  lemma ReportDefaultsAgree(selected: string)
    requires ReportParamFor(selected).Some?
    ensures var p := ReportParamFor(selected).value;
            GenerateReport(selected, None) == GenerateReport(selected, Some("")) ==
            GenerateReport(selected, Some(p.defaultValue)) &&
            Parameter(GenerateReport(selected, None)) == ParseInt(p.defaultValue)
    ensures Parameter(GenerateReport(selected, None)) ==
            if selected == "frequent-rules" then Some(5) else if selected == "active-users" then Some(3) else Some(1)
  {
    var p := ReportParamFor(selected).value;
    var n := if selected == "frequent-rules" then 5 else if selected == "active-users" then 3 else 1;
    assert p.defaultValue == NatToString(n);
    ParseNaturalText(n);
  }

  /** A number typed into the input is the number requested. */
  lemma ReportParameterReadBack(selected: string, n: int)
    requires ReportParamFor(selected).Some?
    ensures Parameter(GenerateReport(selected, Some(IntToString(n)))) == Some(n)
  {
    ParseIntOfText(n);
    assert IntToString(n) != "" by {
      if n < 0 {
        assert IntToString(n)[0] == '-';
      } else {
        assert |NatToString(n)| >= 1;
      }
    }
  }

  /** `!data || data.length === 0` (lines 193-196 and each other report
      view): the view shows its empty message instead of a table. */
  predicate ShowsEmptyMessage(data: Js)
  {
    !Truthy(data) || Length(data) == Num(0)
  }

  /** The report views and the dashboard's event list test for "no data"
      alike. */
  lemma EmptyTestsAgree(data: Js)
    ensures ShowsEmptyMessage(data) <==> Display.DashboardEvents(data).NoEventsFound?
    ensures ShowsEmptyMessage(Arr([])) && ShowsEmptyMessage(Null) && !ShowsEmptyMessage(Arr([Null]))
  {
  }

  /** `report.relatedalertid?.id === alertId` (line 603): strict equality
      with the requested number, which NaN never meets and a string id never
      meets either. */
  predicate DirectlyRelated(report: Js, alertId: Option<int>)
  {
    alertId.Some? && Get(Get(report, "relatedalertid"), "id") == Num(alertId.value)
  }

  /** One row of the related-events report. */
  datatype RelatedRow = RelatedRow(reportId: string, title: string, createdBy: string, directlyRelated: string)

  /** The row of one report (lines 596-612): 'N/A' for a missing id or
      author, 'Untitled Report' for a missing title, and Yes or No. */
  function RelatedRowOf(report: Js, alertId: Option<int>): (r: Result<RelatedRow, Thrown>)
    ensures r.Success? <==> !Nullish(report)
    ensures r.Success? ==> (r.value.directlyRelated == "Yes" <==> DirectlyRelated(report, alertId))
  {
    if Nullish(report) then Failure(TypeError)
    else Success(RelatedRow(ToStr(Or(Get(report, "id"), Str("N/A"))),
                            ToStr(Or(Get(report, "title"), Str("Untitled Report"))),
                            ToStr(Or(Get(Get(report, "createdby"), "id"), Str("N/A"))),
                            if DirectlyRelated(report, alertId) then "Yes" else "No"))
  }

  /** What the related-events report shows. */
  datatype RelatedView = RelatedEmpty(message: string) | RelatedRows(rows: seq<RelatedRow>)

  /** `displayReportsWithRelatedEvents` (lines 567-622): the empty message
      naming the alert, or one row per report. */
  function RelatedReportsView(data: Js, alertId: Option<int>): (r: Result<RelatedView, Thrown>)
    ensures r.Success? && r.value.RelatedEmpty? <==> ShowsEmptyMessage(data)
    ensures r.Success? && r.value.RelatedRows? ==>
              data.Arr? && |r.value.rows| == |data.items| &&
              forall i :: 0 <= i < |data.items| ==>
                (r.value.rows[i].directlyRelated == "Yes" <==> DirectlyRelated(data.items[i], alertId))
  {
    if ShowsEmptyMessage(data) then
      Success(RelatedEmpty("No reports with events related to Alert #" +
                           (if alertId.Some? then IntToString(alertId.value) else "NaN") + " found"))
    else if !data.Arr? then Failure(TypeError)
    else
      var rows := MapRows(data.items, (report: Js) => RelatedRowOf(report, alertId));
      if rows.Failure? then Failure(rows.error) else Success(RelatedRows(rows.value))
  }

  /** A report tied to alert 1 is directly related to a request for alert
      1, not to one for alert 2 nor to NaN, and an id sent as the string
      "1" is not related either. */
  lemma DirectlyRelatedExamples()
    ensures var tied := Obj([("relatedalertid", Obj([("id", Num(1))]))]);
            DirectlyRelated(tied, Some(1)) && !DirectlyRelated(tied, Some(2)) && !DirectlyRelated(tied, None)
    ensures !DirectlyRelated(Obj([("relatedalertid", Obj([("id", Str("1"))]))]), Some(1))
    ensures !DirectlyRelated(Obj([("relatedalertid", Null)]), Some(1))
  {
  }
}
