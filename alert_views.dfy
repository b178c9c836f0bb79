/** services/alert-service.ts: the rows of the alerts dashboard and the
    status values its update form offers. */
module AlertViews {
  import opened Wrappers
  import opened Text
  import opened JsValues
  import opened Badges
  import opened Listings
  import Entities
  import Alerts

  /** One row of the alerts table: the alert id, its rule id, the status
      badge class and the status text. */
  datatype AlertRow = AlertRow(id: string, rule: string, statusClass: string, status: string)

  /** The row of one alert (lines 48-77): a missing rule shows 'Unknown';
      the badge class comes from the status and throws for a status that is
      neither falsy nor a string. */
  function AlertRowOf(alert: Js): (r: Result<AlertRow, Thrown>)
    ensures r.Success? <==> !Nullish(alert) && AlertStatusClass(Get(alert, "status")).Success?
    ensures r.Success? ==> r.value.statusClass == AlertStatusClass(Get(alert, "status")).value
    ensures r.Success? && !Truthy(Get(Get(alert, "ruleid"), "id")) ==> r.value.rule == "Unknown"
  {
    if Nullish(alert) then Failure(TypeError)
    else
      var status := Get(alert, "status");
      var cls := AlertStatusClass(status);
      if cls.Failure? then Failure(cls.error)
      else Success(AlertRow(ToStr(Get(alert, "id")), ToStr(Or(Get(Get(alert, "ruleid"), "id"), Str("Unknown"))),
                            cls.value, ToStr(status)))
  }

  const NoAlertsMessage: string := "No alerts found"

  /** The alerts table (lines 20-78): the header reads `alerts.length`, a
      length of 0 gives the one "No alerts found" row, and anything else is
      walked with `forEach`, which only a list has. */
  function AlertsTable(alerts: Js): (r: Result<TableBody<AlertRow>, Thrown>)
    ensures r == Success(EmptyRow(NoAlertsMessage)) <==> !Nullish(alerts) && Length(alerts) == Num(0)
  {
    if Nullish(alerts) then Failure(TypeError)
    else if Length(alerts) == Num(0) then Success(EmptyRow(NoAlertsMessage))
    else if !alerts.Arr? then Failure(TypeError)
    else
      var rows := MapRows(alerts.items, AlertRowOf);
      if rows.Failure? then Failure(rows.error) else Success(Rows(rows.value))
  }

  /** On a list, the alert view's check-then-loop gives the same table as
      the loop-then-check of the other list views; it also accepts an object
      whose `length` is 0 and the empty string, which they refuse. */
  lemma AlertsTableIsListTable(alerts: Js)
    ensures alerts.Arr? ==> AlertsTable(alerts) == ListTable(alerts, AlertRowOf, NoAlertsMessage)
    ensures AlertsTable(Obj([("length", Num(0))])) == Success(EmptyRow(NoAlertsMessage))
    ensures ListTable(Obj([("length", Num(0))]), AlertRowOf, NoAlertsMessage) == Failure(TypeError)
    ensures AlertsTable(Str("")) == Success(EmptyRow(NoAlertsMessage))
  {
    if alerts.Arr? && alerts.items == [] {
      assert MapRows(alerts.items, AlertRowOf) == Success([]);
    }
  }

  /** An empty list gives exactly one row, the "No alerts found" one; a
      list of n alerts whose rows do not throw gives n rows. */
  lemma AlertsTableRows(items: seq<Js>)
    requires forall i :: 0 <= i < |items| ==> AlertRowOf(items[i]).Success?
    ensures items == [] ==> AlertsTable(Arr(items)) == Success(EmptyRow(NoAlertsMessage))
    ensures items != [] ==> AlertsTable(Arr(items)).Success? && AlertsTable(Arr(items)).value.Rows? &&
                            |AlertsTable(Arr(items)).value.rows| == |items|
  {
    AlertsTableIsListTable(Arr(items));
  }

  /** The options of the status form (lines 316-320), in the order shown. */
  const StatusOptions: seq<string> := ["Open", "Investigating", "Resolved"]

  /** The form offers exactly the values the server's error message names;
      each gets a known badge here, yet the server's `AlertStatus.valueOf`,
      which takes only the upper-case names, refuses every one of them. */
  lemma StatusOptionsAreRefused()
    ensures StatusOptions == Alerts.OfferedStatuses
    ensures forall i :: 0 <= i < |StatusOptions| ==>
              Entities.AlertStatusValueOf(StatusOptions[i]).None? &&
              Entities.AlertStatusValueOf(ToUpper(StatusOptions[i])).Some? &&
              AlertStatusClass(Str(StatusOptions[i])).value != "status-unknown"
  {
    Alerts.OfferedStatusesAreRefused();
    assert ToUpper("Open") == "OPEN";
    assert ToUpper("Investigating") == "INVESTIGATING";
    assert ToUpper("Resolved") == "RESOLVED";
    assert ToLower("Open") == "open";
    assert ToLower("Investigating") == "investigating";
    assert ToLower("Resolved") == "resolved";
  }
}
