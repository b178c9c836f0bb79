/** services/incident-report-service.ts: the rows of the incident-report
    table, the search for one report by id and the payload that links an
    event to a report. The creation of a report is `Api.FetchJson`. */
module IncidentViews {
  import opened Wrappers
  import opened Text
  import opened JsValues
  import opened Api
  import opened Listings

  /** One row of the report table: title, author, related alert. */
  datatype IncidentRow = IncidentRow(title: string, createdBy: string, relatedAlert: string)

  /** The row of one report (lines 46-63): 'Untitled Report' and 'Unknown
      User' stand in for a missing title or author, and the related alert
      shows as "Alert #<id>" when its id is truthy, 'None' otherwise. */
  function IncidentRowOf(report: Js): (r: Result<IncidentRow, Thrown>)
    ensures r.Success? <==> !Nullish(report)
    ensures r.Success? ==> (r.value.relatedAlert == "None" <==> !Truthy(Get(Get(report, "relatedalertid"), "id")))
  {
    if Nullish(report) then Failure(TypeError)
    else
      var alertId := Get(Get(report, "relatedalertid"), "id");
      Success(IncidentRow(ToStr(Or(Get(report, "title"), Str("Untitled Report"))),
                          ToStr(Or(Get(Get(report, "createdby"), "id"), Str("Unknown User"))),
                          if Truthy(alertId) then "Alert #" + ToStr(alertId) else "None"))
  }

  const NoReportsMessage: string := "No incident reports found"

  /** The report table (lines 45-74). */
  function IncidentTable(reports: Js): (r: Result<TableBody<IncidentRow>, Thrown>)
    ensures !reports.Arr? ==> r == Failure(TypeError)
    ensures reports.Arr? && reports.items == [] ==> r == Success(EmptyRow(NoReportsMessage))
    ensures reports.Arr? && reports.items != [] ==>
              (r.Success? <==> forall k :: 0 <= k < |reports.items| ==> !Nullish(reports.items[k]))
    ensures r.Success? && r.value.Rows? ==>
              reports.Arr? && |r.value.rows| == |reports.items| &&
              forall k :: 0 <= k < |reports.items| ==>
                (r.value.rows[k].relatedAlert == "None" <==> !Truthy(Get(Get(reports.items[k], "relatedalertid"), "id")))
  {
    ListTable(reports, IncidentRowOf, NoReportsMessage)
  }

  /** A bare report shows the fallbacks; a report tied to alert 7 shows
      "Alert #7", while alert id 0, being falsy, shows 'None'. */
  lemma IncidentRowFallbacks()
    ensures IncidentRowOf(Obj([])) == Success(IncidentRow("Untitled Report", "Unknown User", "None"))
    ensures IncidentRowOf(Obj([("relatedalertid", Obj([("id", Num(7))]))])).value.relatedAlert == "Alert #7"
    ensures IncidentRowOf(Obj([("relatedalertid", Obj([("id", Num(0))]))])).value.relatedAlert == "None"
  {
    assert NatToString(7) == "7";
  }

  /** `r.id.toString()`: reading `id` of null or undefined, or calling
      `toString` on a null or undefined id, throws. */
  function IdText(r: Js): (t: Result<string, Thrown>)
    ensures t.Success? <==> !Nullish(r) && !Nullish(Get(r, "id"))
  {
    if Nullish(r) || Nullish(Get(r, "id")) then Failure(TypeError)
    else Success(ToStr(Get(r, "id")))
  }

  /** `allReports.find(...)` from position `from` on: the position of the
      first report whose id text is `reportId`, none when no report has it,
      or the error of the first report whose id cannot be read. */
  function FindFrom(items: seq<Js>, reportId: string, from: nat): (r: Result<Option<nat>, Thrown>)
    requires from <= |items|
    decreases |items| - from
    ensures r.Success? && r.value.Some? ==>
              from <= r.value.value < |items| && IdText(items[r.value.value]) == Success(reportId) &&
              forall j :: from <= j < r.value.value ==> IdText(items[j]).Success? && IdText(items[j]).value != reportId
    ensures r == Success(None) <==>
              forall j :: from <= j < |items| ==> IdText(items[j]).Success? && IdText(items[j]).value != reportId
    ensures r.Failure? ==> r.error == TypeError
  {
    if from == |items| then Success(None)
    else
      var id := IdText(items[from]);
      if id.Failure? then Failure(id.error)
      else if id.value == reportId then Success(Some(from))
      else FindFrom(items, reportId, from + 1)
  }

  function NotFoundMessage(reportId: string): string
  {
    "Report with ID " + reportId + " not found"
  }

  /** `getReportById` (lines 125-142): all reports are fetched and the first
      whose id text equals `reportId` is answered; when none does, it throws
      "Report with ID <id> not found". */
  function GetReportById(reply: Fetched, reportId: string): (r: Result<Js, Thrown>)
    ensures r.Success? ==> FetchJson(reply).Success? && FetchJson(reply).value.Arr? &&
                           r.value in FetchJson(reply).value.items && IdText(r.value) == Success(reportId)
    ensures r == Failure(Error(NotFoundMessage(reportId))) <==>
              FetchJson(reply).Success? && FetchJson(reply).value.Arr? &&
              forall j :: 0 <= j < |FetchJson(reply).value.items| ==>
                IdText(FetchJson(reply).value.items[j]).Success? &&
                IdText(FetchJson(reply).value.items[j]).value != reportId
  {
    var all := FetchJson(reply);
    if all.Failure? then
      assert all.error != Error(NotFoundMessage(reportId)) by {
        if all.error.Error? {
          assert all.error.message[0] == 'A' && NotFoundMessage(reportId)[0] == 'R';
        }
      }
      Failure(all.error)
    else if !all.value.Arr? then Failure(TypeError)
    else
      var found := FindFrom(all.value.items, reportId, 0);
      if found.Failure? then Failure(found.error)
      else if found.value.None? then Failure(Error(NotFoundMessage(reportId)))
      else Success(all.value.items[found.value.value])
  }

  /** Two different numbers never have the same decimal text, as reading
      the text back gives the number. */
  lemma IntToStringInjective(a: int, b: int)
    ensures IntToString(a) == IntToString(b) ==> a == b
  {
    ParseIntOfText(a);
    ParseIntOfText(b);
  }

  /** The search answers the first report whose id text matches, once the
      ones before it have readable ids that do not. */
  lemma {:induction false} FindFromFirst(items: seq<Js>, reportId: string, from: nat, k: nat)
    requires from <= k < |items|
    requires IdText(items[k]) == Success(reportId)
    requires forall j :: from <= j < k ==> IdText(items[j]).Success? && IdText(items[j]).value != reportId
    decreases k - from
    ensures FindFrom(items, reportId, from) == Success(Some(k))
  {
    if from < k {
      FindFromFirst(items, reportId, from + 1, k);
    }
  }

  /** A report with numeric id n is found by the text of n, whichever
      reports with other numeric ids come before it. */
  lemma ReportFoundById(items: seq<Js>, k: nat, n: int)
    requires k < |items|
    requires forall j :: 0 <= j < |items| ==> items[j].Obj? && Get(items[j], "id").Num?
    requires Get(items[k], "id") == Num(n)
    requires forall j :: 0 <= j < k ==> Get(items[j], "id") != Num(n)
    ensures GetReportById(Responded(HttpResponse(200, "OK", "", Some(Arr(items)))), IntToString(n)) == Success(items[k])
  {
    forall j | 0 <= j < k ensures IdText(items[j]).Success? && IdText(items[j]).value != IntToString(n) {
      IntToStringInjective(Get(items[j], "id").n, n);
    }
    FindFromFirst(items, IntToString(n), 0, k);
  }

  /** `parseInt` as JSON sends it: NaN is written as null. */
  function JsonInt(v: Option<int>): Js
  {
    if v.Some? then Num(v.value) else Null
  }

  /** The body `linkEventToReport` posts (lines 185-192): both ids through
      `parseInt`, each wrapped as the `id` of its entity. */
  function LinkPayload(reportId: string, eventId: string): (p: Js)
    ensures p.Obj? && Get(Get(p, "incidentreportid"), "id") == JsonInt(ParseInt(reportId))
    ensures Get(Get(p, "logeventid"), "id") == JsonInt(ParseInt(eventId))
  {
    var props := [("incidentreportid", Obj([("id", JsonInt(ParseInt(reportId)))])),
                  ("logeventid", Obj([("id", JsonInt(ParseInt(eventId)))]))];
    assert Lookup(props[1..], "logeventid") == Some(props[1].1);
    Obj(props)
  }

  /** The ids the report rows carry are the numbers' texts, and the payload
      reads them back to the same numbers; text that is not a number is sent
      as null. */
  lemma LinkPayloadRoundTrip(reportId: int, eventId: int)
    ensures var p := LinkPayload(ToStr(Num(reportId)), ToStr(Num(eventId)));
            Get(Get(p, "incidentreportid"), "id") == Num(reportId) &&
            Get(Get(p, "logeventid"), "id") == Num(eventId)
    ensures Get(Get(LinkPayload("abc", ToStr(Num(eventId))), "incidentreportid"), "id") == Null
  {
    ParseIntOfText(reportId);
    ParseIntOfText(eventId);
    ParseIntNaN();
  }
}
