/** The CSS classes the list views give severity and status badges: the
    `getSeverityClass` and `getStatusClass` helpers of the alert-rule,
    threat-intelligence, alert and advanced-report views. */
module Badges {
  import opened Wrappers
  import opened Text
  import opened JsValues

  /** `getSeverityClass` of services/alert-rule-service.ts (lines 587-598);
      services/threat-intell-service.ts (lines 225-236) has the same switch.
      The upper-cased severity picks the class. */
  function SeverityClass(severity: string): (r: string)
    ensures r == "severity-high" <==> ToLower(severity) == "high"
    ensures r == "severity-medium" <==> ToLower(severity) == "medium"
    ensures r == "severity-low" <==> ToLower(severity) == "low"
    ensures r in {"severity-high", "severity-medium", "severity-low", "severity-unknown"}
  {
    SeverityWords();
    FoldWord(severity, "HIGH");
    FoldWord(severity, "MEDIUM");
    FoldWord(severity, "LOW");
    var u := ToUpper(severity);
    if u == "HIGH" then "severity-high"
    else if u == "MEDIUM" then "severity-medium"
    else if u == "LOW" then "severity-low"
    else "severity-unknown"
  }

  /** The status words in lower case. */
  lemma StatusWords()
    ensures ToLower("OPEN") == "open" && ToLower("INVESTIGATING") == "investigating" &&
            ToLower("RESOLVED") == "resolved"
  {
  }

  /** The severity words in lower case. */
  lemma SeverityWords()
    ensures ToLower("CRITICAL") == "critical" && ToLower("HIGH") == "high" &&
            ToLower("MEDIUM") == "medium" && ToLower("LOW") == "low"
  {
  }

  /** `getStatusClass` of services/alert-rule-service.ts (lines 605-616). */
  function RuleStatusClass(status: string): (r: string)
    ensures r == "status-open" <==> ToLower(status) == "open"
    ensures r == "status-investigating" <==> ToLower(status) == "investigating"
    ensures r == "status-resolved" <==> ToLower(status) == "resolved"
    ensures r in {"status-open", "status-investigating", "status-resolved", "status-unknown"}
  {
    StatusWords();
    FoldWord(status, "OPEN");
    FoldWord(status, "INVESTIGATING");
    FoldWord(status, "RESOLVED");
    var u := ToUpper(status);
    if u == "OPEN" then "status-open"
    else if u == "INVESTIGATING" then "status-investigating"
    else if u == "RESOLVED" then "status-resolved"
    else "status-unknown"
  }

  /** `getStatusClass` of services/alert-service.ts (lines 133-146): a falsy
      status is unknown; any other is lower-cased, which throws for a value
      that is not a string. */
  function AlertStatusClass(status: Js): (r: Result<string, Thrown>)
    ensures r.Failure? <==> Truthy(status) && !status.Str?
    ensures r.Failure? ==> r.error == TypeError
  {
    if !Truthy(status) then Success("status-unknown")
    else if !status.Str? then Failure(TypeError)
    else
      var l := ToLower(status.s);
      if l == "open" then Success("status-open")
      else if l == "investigating" then Success("status-investigating")
      else if l == "resolved" then Success("status-resolved")
      else Success("status-unknown")
  }

  /** `getSeverityClass` of components/advanced.ts (lines 626-639): the
      lower-cased severity, with `critical` as a fourth level. */
  function ReportSeverityClass(severity: string): (r: string)
    ensures r == "severity-critical" <==> ToUpper(severity) == "CRITICAL"
    ensures r == "severity-high" <==> ToUpper(severity) == "HIGH"
    ensures r == "severity-medium" <==> ToUpper(severity) == "MEDIUM"
    ensures r == "severity-low" <==> ToUpper(severity) == "LOW"
  {
    SeverityWords();
    FoldWord(severity, "CRITICAL");
    FoldWord(severity, "HIGH");
    FoldWord(severity, "MEDIUM");
    FoldWord(severity, "LOW");
    var l := ToLower(severity);
    if l == "critical" then "severity-critical"
    else if l == "high" then "severity-high"
    else if l == "medium" then "severity-medium"
    else if l == "low" then "severity-low"
    else "severity-unknown"
  }

  /** The severity badge is a known level exactly for the three level names
      in any mix of cases. */
  lemma SeverityClassKnown(severity: string)
    ensures SeverityClass(severity) != "severity-unknown" <==>
            ToLower(severity) == "high" || ToLower(severity) == "medium" || ToLower(severity) == "low"
  {
    FoldWord(severity, "HIGH");
    FoldWord(severity, "MEDIUM");
    FoldWord(severity, "LOW");
  }

  /** The advanced-report badge, which lower-cases, agrees with the
      upper-casing one on every severity but `critical`, the one level only
      it knows. */
  lemma ReportSeverityAgrees(severity: string)
    ensures ReportSeverityClass(severity) ==
            if ToLower(severity) == "critical" then "severity-critical" else SeverityClass(severity)
    ensures SeverityClass("critical") == "severity-unknown"
  {
    FoldWord(severity, "HIGH");
    FoldWord(severity, "MEDIUM");
    FoldWord(severity, "LOW");
    assert ToUpper("critical") == "CRITICAL";
  }

  /** The alert view's badge, which lower-cases and tolerates a missing
      status, gives a string status the class the rule view's badge, which
      upper-cases, gives it. */
  lemma StatusClassesAgree(status: string)
    ensures AlertStatusClass(Str(status)) == Success(RuleStatusClass(status))
  {
    StatusWords();
    if status != "" {
      FoldWord(status, "OPEN");
      FoldWord(status, "INVESTIGATING");
      FoldWord(status, "RESOLVED");
    }
  }
}
