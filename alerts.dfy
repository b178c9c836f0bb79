/** The alert endpoints of `AlertController` that decide something: the
    status update behind `AlertStatus.valueOf`, and the alerts of a rule. */
module Alerts {
  import opened Wrappers
  import opened Entities
  import opened Tables
  import opened Responses

  /** The body of the BadRequest an invalid status gets (line 86). */
  const InvalidStatusMessage: string := "Invalid status value. Allowed values: Open, Investigating, Resolved."

  /** The three values the message offers. */
  const OfferedStatuses: seq<string> := ["Open", "Investigating", "Resolved"]

  /** Every value the message offers is one `valueOf` refuses, while the
      names it accepts are the upper-case ones. */
  lemma OfferedStatusesAreRefused()
    ensures forall i :: 0 <= i < |OfferedStatuses| ==> AlertStatusValueOf(OfferedStatuses[i]).None?
    ensures forall s: AlertStatus :: AlertStatusValueOf(AlertStatusDisplay(s)).None?
    ensures AlertStatusValueOf("OPEN") == Some(Open) && AlertStatusValueOf("INVESTIGATING") == Some(Investigating) &&
            AlertStatusValueOf("RESOLVED") == Some(Resolved)
  {
    forall s: AlertStatus ensures AlertStatusValueOf(AlertStatusDisplay(s)).None? {
      DisplayValuesAreNotNames(Admin, s);
    }
  }

  class AlertController {
    const alerts: AlertTable
    const rules: AlertruleTable

    constructor (alerts: AlertTable, rules: AlertruleTable)
      ensures this.alerts == alerts && this.rules == rules
    {
      this.alerts := alerts;
      this.rules := rules;
    }

    /** `getAlertsByRule` (lines 50-57): no alerts for an unknown rule,
        otherwise exactly the alerts raised by it. */
    method GetAlertsByRule(ruleId: int) returns (found: set<Alert>)
      ensures ruleId !in rules.rows ==> found == {}
      ensures ruleId in rules.rows ==>
                forall a :: a in found <==> a in alerts.rows.Values && a.ruleid == ruleId
    {
      if ruleId !in rules.rows {
        return {};
      }
      found := set a | a in alerts.rows.Values && a.ruleid == ruleId;
    }

    /** `getAlertsByRuleAndStatus` (lines 64-71): no alerts for an unknown
        rule, otherwise exactly its alerts with that status. */
    method GetAlertsByRuleAndStatus(ruleId: int, status: AlertStatus) returns (found: set<Alert>)
      ensures ruleId !in rules.rows ==> found == {}
      ensures ruleId in rules.rows ==>
                forall a :: a in found <==> a in alerts.rows.Values && a.ruleid == ruleId && a.status == status
    {
      var ofRule := GetAlertsByRule(ruleId);
      found := set a | a in ofRule && a.status == status;
    }

    /** `updateAlertStatus` (lines 78-100). The status text is checked first,
        so a bad one is refused whatever the id; then an unknown id is
        NotFound. Otherwise only the status of the alert changes, and the
        alert is saved and returned. */
    method UpdateAlertStatus(id: int, statusParam: string) returns (resp: Response<Alert>)
      requires alerts.Valid()
      modifies alerts
      ensures alerts.Valid()
      ensures !resp.Ok? ==> alerts.rows == old(alerts.rows)
      ensures AlertStatusValueOf(statusParam).None? ==> resp == BadRequest(Some(InvalidStatusMessage))
      ensures AlertStatusValueOf(statusParam).Some? && id !in old(alerts.rows) ==> resp == NotFound
      ensures AlertStatusValueOf(statusParam).Some? && id in old(alerts.rows) ==>
                var updated := old(alerts.rows)[id].(status := AlertStatusValueOf(statusParam).value);
                resp == Ok(updated) && alerts.rows == old(alerts.rows)[id := updated]
    {
      var status := AlertStatusValueOf(statusParam);
      if status.None? {
        return BadRequest(Some(InvalidStatusMessage));
      }
      if id !in alerts.rows {
        return NotFound;
      }
      var alert := alerts.rows[id];
      alert := alert.(status := status.value);
      alerts.rows := alerts.rows[alert.id := alert];
      resp := Ok(alert);
    }
  }
}
