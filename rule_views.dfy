/** services/alert-rule-service.ts: the rows of the alert-rule table, the
    toggle of a rule's `isactive` flag, and the frequently-triggered rules
    built from the server's positional tuples. */
module RuleViews {
  import opened Wrappers
  import opened JsValues
  import opened Api
  import opened Badges
  import opened Listings

  /** One row of the rule table: name, severity with its badge class, the
      Active/Inactive status and the label of the toggle button. */
  datatype RuleRow = RuleRow(name: string, severity: string, severityClass: string, status: string, toggleLabel: string)

  /** The row of one rule (lines 47-68): a missing name shows 'Unnamed
      Rule', a missing severity 'UNKNOWN', and a truthy `isactive` shows
      Active with a Deactivate button. A severity that is not a string has
      no `toUpperCase` and throws. */
  function RuleRowOf(rule: Js): (r: Result<RuleRow, Thrown>)
    ensures r.Success? ==> (r.value.status == "Active" <==> Truthy(Get(rule, "isactive")))
    ensures r.Success? ==> (r.value.status == "Active" <==> r.value.toggleLabel == "Deactivate")
  {
    if Nullish(rule) then Failure(TypeError)
    else
      var severity := Or(Get(rule, "severity"), Str("UNKNOWN"));
      var active := Truthy(Get(rule, "isactive"));
      if !severity.Str? then Failure(TypeError)
      else Success(RuleRow(ToStr(Or(Get(rule, "name"), Str("Unnamed Rule"))), severity.s,
                           SeverityClass(severity.s),
                           if active then "Active" else "Inactive",
                           if active then "Deactivate" else "Activate"))
  }

  const NoRulesMessage: string := "No alert rules found"

  /** The rule table (lines 46-77). */
  function RuleTable(rules: Js): (r: Result<TableBody<RuleRow>, Thrown>)
    ensures !rules.Arr? ==> r == Failure(TypeError)
    ensures rules.Arr? && rules.items == [] ==> r == Success(EmptyRow(NoRulesMessage))
    ensures r.Success? && r.value.Rows? ==>
              rules.Arr? && |r.value.rows| == |rules.items| &&
              forall k :: 0 <= k < |rules.items| ==>
                (r.value.rows[k].status == "Active" <==> Truthy(Get(rules.items[k], "isactive")))
    ensures rules.Arr? && rules.items != [] ==>
              (r.Success? <==> forall k :: 0 <= k < |rules.items| ==> RuleRowOf(rules.items[k]).Success?)
  {
    ListTable(rules, RuleRowOf, NoRulesMessage)
  }

  /** A rule object without name, severity or flag shows the fallbacks. */
  lemma RuleRowFallbacks(id: Js)
    ensures RuleRowOf(Obj([("id", id)])) ==
            Success(RuleRow("Unnamed Rule", "UNKNOWN", "severity-unknown", "Inactive", "Activate"))
    ensures RuleRowOf(Obj([("severity", Num(3))])) == Failure(TypeError)
  {
    assert Lookup([("id", id)], "severity") == None;
    assert ToStr(Str("Unnamed Rule")) == "Unnamed Rule";
  }

  /** `rule.isactive = !isActive` on the fetched rule (line 211): an object
      takes the flag and keeps every other property and its place; a list
      posts its elements unchanged, as JSON writes no other property of a
      list; assigning to a property of null, undefined or another primitive
      throws. */
  function ToggledRule(rule: Js, isActive: bool): (r: Result<Js, Thrown>)
    ensures r.Success? <==> rule.Obj? || rule.Arr?
    ensures rule.Obj? ==> r.Success? && r.value.Obj? && Get(r.value, "isactive") == Bool(!isActive) &&
                          forall k :: k != "isactive" ==> Get(r.value, k) == Get(rule, k)
    ensures rule.Arr? ==> r == Success(rule)
  {
    match rule
    case Obj(props) => Success(Obj(SetProp(props, "isactive", Bool(!isActive))))
    case Arr(_) => Success(rule)
    case _ => Failure(TypeError)
  }

  /** `toggleRuleStatus` (lines 203-227): fetch the rule, flip its flag, post
      it back and answer the saved rule. Both calls throw on a response that
      is not ok, so the error carries the status and status text but not the
      body text the method's own check would have added. */
  function ToggleRuleStatus(ruleReply: Fetched, isActive: bool, saveReply: Fetched): (r: Result<Js, Thrown>)
    ensures r.Success? <==> FetchJson(ruleReply).Success? && ToggledRule(FetchJson(ruleReply).value, isActive).Success? &&
                            FetchJson(saveReply).Success?
    ensures r.Success? ==> r.value == saveReply.response.body.value
    ensures FetchJson(ruleReply).Success? && ToggledRule(FetchJson(ruleReply).value, isActive).Success? &&
            saveReply.Responded? && !IsOk(saveReply.response) ==>
              r == Failure(Error(ApiErrorMessage(saveReply.response)))
  {
    var rule := FetchJson(ruleReply);
    if rule.Failure? then Failure(rule.error)
    else
      var posted := ToggledRule(rule.value, isActive);
      if posted.Failure? then Failure(posted.error)
      else FetchJson(saveReply)
  }

  /** The toggle button passes the flag its row shows, so the toggled rule
      shows the other status: an active rule turns inactive and back. */
  lemma ToggleFlipsRow(rule: Js)
    requires rule.Obj? && RuleRowOf(rule).Success?
    ensures var shown := Truthy(Get(rule, "isactive"));
            var toggled := ToggledRule(rule, shown).value;
            RuleRowOf(toggled).Success? &&
            RuleRowOf(toggled).value.status == (if shown then "Inactive" else "Active") &&
            RuleRowOf(toggled).value.name == RuleRowOf(rule).value.name &&
            RuleRowOf(toggled).value.severity == RuleRowOf(rule).value.severity
  {
    var shown := Truthy(Get(rule, "isactive"));
    var props := SetProp(rule.props, "isactive", Bool(!shown));
    assert ToggledRule(rule, shown).value == Obj(props);
    assert Lookup(props, "isactive") == Some(Bool(!shown));
    assert Lookup(props, "severity") == Lookup(rule.props, "severity");
    assert Lookup(props, "name") == Lookup(rule.props, "name");
  }

  /** One frequently-triggered rule (lines 135-141): the server's tuple
      [ruleId, ruleName, alertCount] read by position; indexing null or
      undefined throws. */
  function FrequentRule(data: Js): (r: Result<Js, Thrown>)
    ensures r.Success? <==> !Nullish(data)
  {
    if Nullish(data) then Failure(TypeError)
    else Success(Obj([("id", Index(data, 0)), ("name", Index(data, 1)), ("alertCount", Index(data, 2))]))
  }

  /** `ruleData.map(...)`: only a list has `map`. */
  function FrequentRules(ruleData: Js): (r: Result<seq<Js>, Thrown>)
    ensures !ruleData.Arr? ==> r == Failure(TypeError)
    ensures r.Success? ==> ruleData.Arr? && |r.value| == |ruleData.items|
  {
    if !ruleData.Arr? then Failure(TypeError) else MapRows(ruleData.items, FrequentRule)
  }

  /** A list of tuples becomes the list of rules, element by element and
      field by field. */
  lemma FrequentRulesPositional(tuples: seq<(Js, Js, Js)>)
    ensures var data := Arr(seq(|tuples|, i requires 0 <= i < |tuples| => Arr([tuples[i].0, tuples[i].1, tuples[i].2])));
            FrequentRules(data).Success? &&
            forall i :: 0 <= i < |tuples| ==>
              Get(FrequentRules(data).value[i], "id") == tuples[i].0 &&
              Get(FrequentRules(data).value[i], "name") == tuples[i].1 &&
              Get(FrequentRules(data).value[i], "alertCount") == tuples[i].2
  {
    var data := Arr(seq(|tuples|, i requires 0 <= i < |tuples| => Arr([tuples[i].0, tuples[i].1, tuples[i].2])));
    var r := FrequentRules(data);
    forall i | 0 <= i < |tuples|
      ensures Get(r.value[i], "id") == tuples[i].0 && Get(r.value[i], "name") == tuples[i].1 &&
              Get(r.value[i], "alertCount") == tuples[i].2
    {
      assert FrequentRule(data.items[i]) == Success(r.value[i]);
      var props := [("id", tuples[i].0), ("name", tuples[i].1), ("alertCount", tuples[i].2)];
      assert r.value[i] == Obj(props);
      assert Lookup(props[2..], "alertCount") == Some(tuples[i].2);
      assert Lookup(props[1..], "alertCount") == Some(tuples[i].2);
      assert Lookup(props[1..], "name") == Some(tuples[i].1);
    }
  }
}
