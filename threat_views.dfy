/** services/threat-intell-service.ts: the rows of the threat-intelligence
    table. The lookup of one threat by its indicator is `Api.FetchJson`. */
module ThreatViews {
  import opened Wrappers
  import opened Text
  import opened JsValues
  import opened Badges
  import opened Listings

  /** One row of the threat table. */
  datatype ThreatRow = ThreatRow(indicator: string, kind: string, severity: string, severityClass: string, description: string)

  /** The row of one threat (lines 46-63): each missing field shows its
      fallback text, and the badge class comes from the severity, which
      throws when it is not a string. */
  function ThreatRowOf(threat: Js): (r: Result<ThreatRow, Thrown>)
    ensures r.Success? ==> r.value.severityClass == SeverityClass(r.value.severity)
    ensures r.Success? && !Truthy(Get(threat, "severity")) ==> r.value.severity == "Unknown"
    ensures r.Success? && !Truthy(Get(threat, "indicator")) ==> r.value.indicator == "Unknown Indicator"
  {
    if Nullish(threat) then Failure(TypeError)
    else
      var severity := Or(Get(threat, "severity"), Str("Unknown"));
      if !severity.Str? then Failure(TypeError)
      else Success(ThreatRow(ToStr(Or(Get(threat, "indicator"), Str("Unknown Indicator"))),
                             ToStr(Or(Get(threat, "type"), Str("Unknown Type"))),
                             severity.s, SeverityClass(severity.s),
                             ToStr(Or(Get(threat, "description"), Str("No description available")))))
  }

  const NoThreatsMessage: string := "No threat intelligence found"

  /** The threat table (lines 45-72). */
  function ThreatTable(threats: Js): (r: Result<TableBody<ThreatRow>, Thrown>)
    ensures !threats.Arr? ==> r == Failure(TypeError)
    ensures threats.Arr? && threats.items == [] ==> r == Success(EmptyRow(NoThreatsMessage))
    ensures r.Success? && r.value.Rows? ==>
              threats.Arr? && |r.value.rows| == |threats.items| &&
              forall k :: 0 <= k < |threats.items| ==>
                r.value.rows[k].severityClass == SeverityClass(r.value.rows[k].severity) &&
                (!Truthy(Get(threats.items[k], "severity")) ==> r.value.rows[k].severity == "Unknown")
  {
    ListTable(threats, ThreatRowOf, NoThreatsMessage)
  }

  /** A threat with no fields shows every fallback, and an empty list shows
      the single "No threat intelligence found" row. */
  lemma ThreatFallbacks()
    ensures ThreatRowOf(Obj([])) ==
            Success(ThreatRow("Unknown Indicator", "Unknown Type", "Unknown", "severity-unknown", "No description available"))
    ensures ThreatTable(Arr([])) == Success(EmptyRow(NoThreatsMessage))
  {
    assert ToUpper("Unknown") == "UNKNOWN";
  }
}
