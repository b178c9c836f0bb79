/** The values the user interface derives from the events and rawlines it
    receives: the two `extractValue` helpers, text shortening, the query of
    the advanced rawline search, the source and destination cells, the
    normalisation of an events response, and the keyword classifier and
    address extraction of the dashboard's events table. */
module Display {
  import opened Wrappers
  import opened Text
  import opened JsValues

  // ---------------------------------------------------------------- extractValue

  /** `extractValue(obj, fallback)` of utils/helpers.ts: the fallback for a
      falsy value; for an object or array a truthy `id`, else a truthy `name`,
      else its JSON text when shorter than 50 characters and
      `[Complex Object]` otherwise; `String(obj)` for anything else. As
      `JSON.stringify` cannot throw on these values, the `[Object]` answer of
      the catch is never produced. */
  function ExtractValue(obj: Js, fallback: string): (r: Js)
    ensures !Truthy(obj) ==> r == Str(fallback)
    ensures Truthy(obj) && !obj.Obj? && !obj.Arr? ==> r == Str(ToStr(obj))
    ensures obj.Obj? && Truthy(Get(obj, "id")) ==> r == Get(obj, "id")
    ensures obj.Obj? && !Truthy(Get(obj, "id")) && Truthy(Get(obj, "name")) ==> r == Get(obj, "name")
    ensures (obj.Obj? || obj.Arr?) && !Truthy(Get(obj, "id")) && !Truthy(Get(obj, "name")) ==>
              Stringify(obj) == Some(Json(obj)) &&
              r == Str(if |Json(obj)| < 50 then Json(obj) else "[Complex Object]")
  {
    if !Truthy(obj) then Str(fallback)
    else if obj.Obj? || obj.Arr? then
      if Truthy(Get(obj, "id")) then Get(obj, "id")
      else if Truthy(Get(obj, "name")) then Get(obj, "name")
      else
        var text := Stringify(obj);
        if text.None? then Str("[Object]")
        else if |text.value| < 50 then Str(text.value)
        else Str("[Complex Object]")
    else Str(ToStr(obj))
  }

  /** Whatever it is given, `extractValue` answers the fallback or a truthy
      value, so with a non-empty fallback a cell it fills is never blank. */
  lemma ExtractValueNeverBlank(obj: Js, fallback: string)
    ensures ExtractValue(obj, fallback) == Str(fallback) || Truthy(ExtractValue(obj, fallback))
    ensures fallback != [] ==> Truthy(ExtractValue(obj, fallback))
  {
    if Truthy(obj) && !obj.Obj? && !obj.Arr? {
      match obj
      case Bool(b) =>
      case Num(n) =>
      case Str(s) =>
    }
  }

  /** `extractValue(obj)` of services/rawline-service.ts: 'N/A' for null or
      undefined; for an object or array a defined `id`, else a defined
      `value`, else its first own property (an array's first element);
      anything else, and an object with no property, is returned as it is. */
  function RawlineExtractValue(obj: Js): (r: Js)
    ensures Nullish(obj) ==> r == Str("N/A")
    ensures obj.Obj? && Get(obj, "id") != Undefined ==> r == Get(obj, "id")
    ensures obj.Obj? && Get(obj, "id") == Undefined && Get(obj, "value") != Undefined ==> r == Get(obj, "value")
    ensures obj.Obj? && Get(obj, "id") == Undefined && Get(obj, "value") == Undefined ==>
              if obj.props == [] then r == obj else r == obj.props[0].1
    ensures obj.Arr? ==> r == (if obj.items == [] then obj else obj.items[0])
    ensures !Nullish(obj) && !obj.Obj? && !obj.Arr? ==> r == obj
  {
    if Nullish(obj) then Str("N/A")
    else if obj.Obj? then
      if Get(obj, "id") != Undefined then Get(obj, "id")
      else if Get(obj, "value") != Undefined then Get(obj, "value")
      else if obj.props != [] then obj.props[0].1
      else obj
    else if obj.Arr? && obj.items != [] then obj.items[0]
    else obj
  }

  /** The two helpers agree on an object with a truthy `id`, and part on a
      falsy one: `{id: 0, name: "x"}` is 0 to the rawlines view and "x" to the
      others, and a `false` is `false` to one and the fallback to the other. */
  lemma ExtractorsCompared(obj: Js)
    ensures obj.Obj? && Truthy(Get(obj, "id")) ==> RawlineExtractValue(obj) == ExtractValue(obj, "N/A")
    ensures var o := Obj([("id", Num(0)), ("name", Str("x"))]);
            RawlineExtractValue(o) == Num(0) && ExtractValue(o, "N/A") == Str("x")
    ensures RawlineExtractValue(Bool(false)) == Bool(false) && ExtractValue(Bool(false), "N/A") == Str("N/A")
  {
  }

  // ---------------------------------------------------------------- shortenText

  /** `shortenText(text, maxLength)` (rawline-service.ts): text no longer
      than the maximum is kept; longer text keeps its first `maxLength`
      characters (none for a negative maximum, as `substring` clamps) and
      gains an ellipsis. */
  function ShortenText(text: string, maxLength: int): (r: string)
    ensures |text| <= maxLength ==> r == text
    ensures |text| > maxLength >= 0 ==> |r| == maxLength + 3 && r == text[..maxLength] + "..."
    ensures maxLength < 0 ==> r == "..."
  {
    if |text| > maxLength then text[..if maxLength < 0 then 0 else maxLength] + "..." else text
  }

  /** Shortening is idempotent, and what it keeps is a prefix of the text. */
  lemma ShortenTextIdempotent(text: string, maxLength: int)
    requires maxLength >= 0
    ensures ShortenText(ShortenText(text, maxLength), maxLength) == ShortenText(text, maxLength)
    ensures var r := ShortenText(text, maxLength);
            r == text || (StartsWith(text, r[..maxLength]) && |r| == maxLength + 3)
  {
    var r := ShortenText(text, maxLength);
    if |text| > maxLength {
      assert r[..maxLength] == text[..maxLength];
    }
  }

  // ---------------------------------------------------------------- advanced search

  /** The optional arguments of `advancedSearchRawlines`; a missing one is
      None. */
  datatype SearchCriteria = SearchCriteria(
    sourceDeviceId: Option<int>,
    destDeviceId: Option<int>,
    sourcePort: Option<int>,
    destPort: Option<int>,
    actionId: Option<string>,
    messageText: Option<string>)

  /** The text a numeric argument is appended with: present and not 0. */
  function NumberText(v: Option<int>): Option<string>
  {
    if v.Some? && v.value != 0 then Some(IntToString(v.value)) else None
  }

  /** The text a text argument is appended with: present and not empty. */
  function TextValue(v: Option<string>): Option<string>
  {
    if v.Some? && v.value != [] then v else None
  }

  /** The six `if (...) params.append(...)` steps, in the order they run. */
  function Candidates(c: SearchCriteria): seq<(string, Option<string>)>
  {
    [("sourceDeviceId", NumberText(c.sourceDeviceId)), ("destDeviceId", NumberText(c.destDeviceId)),
     ("sourcePort", NumberText(c.sourcePort)), ("destPort", NumberText(c.destPort)),
     ("actionId", TextValue(c.actionId)), ("messageText", TextValue(c.messageText))]
  }

  /** Running the steps: each one whose value is present appends it. */
  function Appended(steps: seq<(string, Option<string>)>): (r: seq<(string, string)>)
    ensures |r| <= |steps|
  {
    if steps == [] then []
    else (if steps[0].1.Some? then [(steps[0].0, steps[0].1.value)] else []) + Appended(steps[1..])
  }

  /** The query parameters `advancedSearchRawlines` builds
      (rawline-service.ts). */
  function SearchParams(c: SearchCriteria): (r: seq<(string, string)>)
    ensures |r| <= |SearchParamNames|
    ensures forall p :: p in r ==> p.1 != []
  {
    CandidatesOrdered(c);
    AppendedSpec(Candidates(c));
    Appended(Candidates(c))
  }

  const SearchParamNames: seq<string> :=
    ["sourceDeviceId", "destDeviceId", "sourcePort", "destPort", "actionId", "messageText"]

  /** The place of a parameter in the fixed order. */
  function ParamRank(name: string): nat
  {
    if name == "sourceDeviceId" then 0 else if name == "destDeviceId" then 1
    else if name == "sourcePort" then 2 else if name == "destPort" then 3
    else if name == "actionId" then 4 else 5
  }

  ghost predicate Ordered(ps: seq<(string, string)>)
  {
    forall i, j :: 0 <= i < j < |ps| ==> ParamRank(ps[i].0) < ParamRank(ps[j].0)
  }

  ghost predicate StepsOrdered(steps: seq<(string, Option<string>)>)
  {
    forall i, j :: 0 <= i < j < |steps| ==> ParamRank(steps[i].0) < ParamRank(steps[j].0)
  }

  /** What running the steps appends: a parameter with its text exactly
      when a step holds that text, in the steps' order, each from one step. */
  lemma {:induction false} AppendedSpec(steps: seq<(string, Option<string>)>)
    requires StepsOrdered(steps)
    ensures forall p :: p in Appended(steps) <==> (p.0, Some(p.1)) in steps
    ensures Ordered(Appended(steps))
  {
    if steps != [] {
      AppendedSpec(steps[1..]);
      var rest := Appended(steps[1..]);
      forall p | p in rest ensures ParamRank(steps[0].0) < ParamRank(p.0) {
        var i :| 0 <= i < |steps[1..]| && steps[1..][i] == (p.0, Some(p.1));
        assert steps[i + 1] == (p.0, Some(p.1));
      }
      var head := if steps[0].1.Some? then [(steps[0].0, steps[0].1.value)] else [];
      assert Appended(steps) == head + rest;
      forall i, j | 0 <= i < j < |head + rest|
        ensures ParamRank((head + rest)[i].0) < ParamRank((head + rest)[j].0)
      {
        if i < |head| {
          assert (head + rest)[j] in rest;
        }
      }
      forall p ensures p in Appended(steps) <==> (p.0, Some(p.1)) in steps {
        assert steps == [steps[0]] + steps[1..];
      }
    }
  }

  lemma CandidatesOrdered(c: SearchCriteria)
    ensures StepsOrdered(Candidates(c))
  {
    var cs := Candidates(c);
    forall i, j | 0 <= i < j < |cs| ensures ParamRank(cs[i].0) < ParamRank(cs[j].0) {
      assert ParamRank(cs[i].0) == i && ParamRank(cs[j].0) == j;
    }
  }

  /** The parameter of step `k` is sent with a text exactly when that step
      holds the text, as no other step has its name. */
  lemma StepParam(c: SearchCriteria, k: nat)
    requires k < |Candidates(c)|
    ensures forall t :: (Candidates(c)[k].0, t) in SearchParams(c) <==> Candidates(c)[k].1 == Some(t)
  {
    var cs := Candidates(c);
    CandidatesOrdered(c);
    AppendedSpec(cs);
    forall t ensures (cs[k].0, Some(t)) in cs ==> cs[k].1 == Some(t) {
      if (cs[k].0, Some(t)) in cs {
        var i :| 0 <= i < |cs| && cs[i] == (cs[k].0, Some(t));
        assert ParamRank(cs[i].0) == i && ParamRank(cs[k].0) == k;
      }
    }
  }

  /** Every numeric argument is sent exactly when it is present and not 0,
      as its decimal text. */
  lemma SearchParamsNumbers(c: SearchCriteria)
    ensures forall t :: ("sourceDeviceId", t) in SearchParams(c) <==> NumberText(c.sourceDeviceId) == Some(t)
    ensures forall t :: ("destDeviceId", t) in SearchParams(c) <==> NumberText(c.destDeviceId) == Some(t)
    ensures forall t :: ("sourcePort", t) in SearchParams(c) <==> NumberText(c.sourcePort) == Some(t)
    ensures forall t :: ("destPort", t) in SearchParams(c) <==> NumberText(c.destPort) == Some(t)
  {
    StepParam(c, 0);
    StepParam(c, 1);
    StepParam(c, 2);
    StepParam(c, 3);
  }

  /** A number sent reads back, with `parseInt`, as the argument. */
  lemma SearchNumbersReadBack(c: SearchCriteria, t: string)
    requires ("sourcePort", t) in SearchParams(c)
    ensures ParseInt(t) == c.sourcePort
  {
    SearchParamsNumbers(c);
    ParseIntOfText(c.sourcePort.value);
  }

  /** Every text argument is sent exactly when it is present and not empty. */
  lemma SearchParamsTexts(c: SearchCriteria)
    ensures forall t :: ("actionId", t) in SearchParams(c) <==> c.actionId == Some(t) && t != []
    ensures forall t :: ("messageText", t) in SearchParams(c) <==> c.messageText == Some(t) && t != []
  {
    StepParam(c, 4);
    StepParam(c, 5);
  }

  /** The parameters come in the fixed order, each at most once, and are
      only those six. */
  lemma SearchParamsOrdered(c: SearchCriteria)
    ensures Ordered(SearchParams(c))
    ensures forall p :: p in SearchParams(c) ==> p.0 in SearchParamNames
  {
    CandidatesOrdered(c);
    AppendedSpec(Candidates(c));
  }

  // ---------------------------------------------------------------- cells

  /** The port suffix: ":<port>" for a truthy port, nothing otherwise. */
  function PortSuffix(port: Js): string
  {
    if Truthy(port) then ":" + ToStr(port) else ""
  }

  /** A source or destination cell of the rawlines table
      (rawline-service.ts): "Device <device.id>" or 'N/A', then the port
      suffix. */
  function RawlineEndpointCell(device: Js, port: Js): (r: string)
    ensures Truthy(device) ==> r == "Device " + ToStr(Get(device, "id")) + PortSuffix(port)
    ensures !Truthy(device) ==> r == "N/A" + PortSuffix(port)
  {
    (if Truthy(device) then "Device " + ToStr(Get(device, "id")) else "N/A") + PortSuffix(port)
  }

  /** An endpoint of the events view's source/destination cell
      (components/events.ts): as the rawlines table, but the device is
      written through `extractValue`. */
  function EventEndpoint(device: Js, port: Js): (r: string)
    ensures !Truthy(device) ==> r == "N/A" + PortSuffix(port)
    ensures device.Obj? && Truthy(Get(device, "id")) ==> r == "Device " + ToStr(Get(device, "id")) + PortSuffix(port)
    ensures Truthy(device) && !device.Obj? && !device.Arr? ==> r == "Device " + ToStr(device) + PortSuffix(port)
  {
    (if Truthy(device) then "Device " + ToStr(ExtractValue(device, "N/A")) else "N/A") + PortSuffix(port)
  }

  /** The source/destination cell `updateRowWithParsedData` fills from the
      details of a rawline: "<source> → <destination>". Reading the fields of
      a null or undefined `data` throws before the cell is written. */
  function SourceDestCell(data: Js): (r: string)
    requires !Nullish(data)
    ensures r == EventEndpoint(Get(data, "sourcedeviceid"), Get(data, "sourceport")) + " → " +
                 EventEndpoint(Get(data, "destinationdeviceid"), Get(data, "destinationport"))
  {
    EventEndpoint(Get(data, "sourcedeviceid"), Get(data, "sourceport")) + " → " +
    EventEndpoint(Get(data, "destinationdeviceid"), Get(data, "destinationport"))
  }

  /** The two tables write a device object with a truthy id alike, but part
      on a device given as a bare number, which the rawlines table reads an
      `id` of. */
  lemma EndpointCellsCompared(device: Js, port: Js)
    ensures device.Obj? && Truthy(Get(device, "id")) ==>
              RawlineEndpointCell(device, port) == EventEndpoint(device, port)
    ensures !Truthy(device) ==> RawlineEndpointCell(device, port) == EventEndpoint(device, port)
    ensures RawlineEndpointCell(Num(5), Null) == "Device undefined" && EventEndpoint(Num(5), Null) == "Device 5"
  {
    assert IntToString(5) == "5";
  }

  /** An endpoint in the rawline details modal (events.ts): 'N/A' without a
      device, whatever the port; otherwise "Device ID: <device>", with
      ", Port: <port>" only when the port is truthy. */
  function ModalEndpoint(device: Js, port: Js): (r: string)
    ensures !Truthy(device) ==> r == "N/A"
    ensures Truthy(device) && !Truthy(port) ==> r == "Device ID: " + ToStr(ExtractValue(device, "N/A"))
    ensures Truthy(device) && Truthy(port) ==>
              r == "Device ID: " + ToStr(ExtractValue(device, "N/A")) + ", Port: " + ToStr(port)
  {
    if !Truthy(device) then "N/A"
    else
      var info := "Device ID: " + ToStr(ExtractValue(device, "N/A"));
      if Truthy(port) then info + ", Port: " + ToStr(port) else info
  }

  // ---------------------------------------------------------------- events responses

  /** What an events table shows: the "No events found" row, one row per
      event, or nothing because rendering threw. */
  datatype EventsView = NoEventsFound | EventRows(events: seq<Js>) | Threw(error: Thrown)

  /** The events `displayEvents` of components/events.ts takes from a
      response: a falsy response has none; an array is the list; otherwise
      the first of `results`, `data` and `events` that is an array (even an
      empty one); otherwise an object with a truthy `id` is a list of one.
      An empty list shows "No events found". */
  function NormalizeEvents(eventsData: Js): (r: EventsView)
    ensures r.NoEventsFound? || (r.EventRows? && r.events != [])
  {
    var events :=
      if !Truthy(eventsData) then []
      else if eventsData.Arr? then eventsData.items
      else if Get(eventsData, "results").Arr? then Get(eventsData, "results").items
      else if Get(eventsData, "data").Arr? then Get(eventsData, "data").items
      else if Get(eventsData, "events").Arr? then Get(eventsData, "events").items
      else if eventsData.Obj? && Truthy(Get(eventsData, "id")) then [eventsData]
      else [];
    if events == [] then NoEventsFound else EventRows(events)
  }

  /** The events a response wraps: `results`, `data` or `events`, in that
      priority, whichever is an array first. */
  function WrappedList(eventsData: Js): Option<seq<Js>>
  {
    if Get(eventsData, "results").Arr? then Some(Get(eventsData, "results").items)
    else if Get(eventsData, "data").Arr? then Some(Get(eventsData, "data").items)
    else if Get(eventsData, "events").Arr? then Some(Get(eventsData, "events").items)
    else None
  }

  /** Every response shape is read as the events it carries: a list as
      itself, a wrapper as its list, a single event as itself, anything else
      as no events; the rows are exactly the events found. */
  lemma NormalizeEventsShapes(eventsData: Js)
    ensures eventsData.Arr? ==>
              (NormalizeEvents(eventsData) ==
               if eventsData.items == [] then NoEventsFound else EventRows(eventsData.items))
    ensures eventsData.Obj? && WrappedList(eventsData).Some? ==>
              (NormalizeEvents(eventsData) ==
               if WrappedList(eventsData).value == [] then NoEventsFound else EventRows(WrappedList(eventsData).value))
    ensures eventsData.Obj? && WrappedList(eventsData).None? && Truthy(Get(eventsData, "id")) ==>
              NormalizeEvents(eventsData) == EventRows([eventsData])
    ensures !eventsData.Arr? && !eventsData.Obj? ==> NormalizeEvents(eventsData) == NoEventsFound
    ensures eventsData.Obj? && WrappedList(eventsData).None? && !Truthy(Get(eventsData, "id")) ==>
              NormalizeEvents(eventsData) == NoEventsFound
  {
  }

  /** The events the dashboard's own `displayEvents` (main.ts) shows: a
      falsy value or an empty list shows "No events found", a list its rows;
      any other value, whose `length` is not 0, has no `forEach` and throws. */
  function DashboardEvents(events: Js): (r: EventsView)
    ensures r.EventRows? <==> events.Arr? && events.items != []
    ensures r.EventRows? ==> r.events == events.items
  {
    if !Truthy(events) then NoEventsFound
    else if events.Arr? then (if events.items == [] then NoEventsFound else EventRows(events.items))
    else if events.Obj? && Get(events, "length") == Num(0) then NoEventsFound
    else Threw(TypeError)
  }

  /** The two `displayEvents` agree on lists and on falsy responses; on a
      wrapped list the components view shows the events while the dashboard
      throws. */
  lemma EventViewsCompared(eventsData: Js, e: Js)
    ensures eventsData.Arr? || !Truthy(eventsData) ==> NormalizeEvents(eventsData) == DashboardEvents(eventsData)
    ensures var wrapped := Obj([("results", Arr([e]))]);
            NormalizeEvents(wrapped) == EventRows([e]) && DashboardEvents(wrapped) == Threw(TypeError)
  {
  }

  // ---------------------------------------------------------------- dashboard rows

  /** The keywords the dashboard looks for in a raw line, with the action
      each stands for, in the order they are tried. */
  const ActionKeywords: seq<(string, string)> :=
    [("blocked", "Blocked"), ("connection", "Connection"), ("login", "Authentication"),
     ("DNS", "DNS"), ("GET", "HTTP Request"), ("POST", "HTTP Request")]

  /** The action of a raw line (main.ts): by case-sensitive substring, in
      priority blocked, connection, login, DNS, then GET or POST; 'Unknown'
      without a keyword. */
  function ClassifyAction(rawLine: string): (r: string)
    ensures r == "Unknown" || exists k :: 0 <= k < |ActionKeywords| && ActionKeywords[k].1 == r && Contains(rawLine, ActionKeywords[k].0)
    ensures Contains(rawLine, "blocked") ==> r == "Blocked"
  {
    assert ActionKeywords[0] == ("blocked", "Blocked") && ActionKeywords[1] == ("connection", "Connection") &&
           ActionKeywords[2] == ("login", "Authentication") && ActionKeywords[3] == ("DNS", "DNS") &&
           ActionKeywords[4] == ("GET", "HTTP Request") && ActionKeywords[5] == ("POST", "HTTP Request");
    if Contains(rawLine, "blocked") then "Blocked"
    else if Contains(rawLine, "connection") then "Connection"
    else if Contains(rawLine, "login") then "Authentication"
    else if Contains(rawLine, "DNS") then "DNS"
    else if Contains(rawLine, "GET") || Contains(rawLine, "POST") then "HTTP Request"
    else "Unknown"
  }

  /** The label of the first keyword of a table that the line contains. */
  function FirstKeywordLabel(rawLine: string, table: seq<(string, string)>): string
  {
    if table == [] then "Unknown"
    else if Contains(rawLine, table[0].0) then table[0].1
    else FirstKeywordLabel(rawLine, table[1..])
  }

  /** The classifier is the first-match lookup of the keyword table, so an
      earlier keyword always wins. */
  lemma ClassifyByTable(rawLine: string)
    ensures ClassifyAction(rawLine) == FirstKeywordLabel(rawLine, ActionKeywords)
  {
    var t6 := [("POST", "HTTP Request")];
    var t5 := [("GET", "HTTP Request")] + t6;
    var t4 := [("DNS", "DNS")] + t5;
    var t3 := [("login", "Authentication")] + t4;
    var t2 := [("connection", "Connection")] + t3;
    assert ActionKeywords == [("blocked", "Blocked")] + t2;
    assert t6[1..] == [] && t5[1..] == t6 && t4[1..] == t5 && t3[1..] == t4 && t2[1..] == t3;
    assert ([("blocked", "Blocked")] + t2)[1..] == t2;
    var l6 := FirstKeywordLabel(rawLine, t6);
    assert l6 == if Contains(rawLine, "POST") then "HTTP Request" else FirstKeywordLabel(rawLine, []);
    var l5 := FirstKeywordLabel(rawLine, t5);
    assert l5 == if Contains(rawLine, "GET") then "HTTP Request" else l6;
    var l4 := FirstKeywordLabel(rawLine, t4);
    assert l4 == if Contains(rawLine, "DNS") then "DNS" else l5;
    var l3 := FirstKeywordLabel(rawLine, t3);
    assert l3 == if Contains(rawLine, "login") then "Authentication" else l4;
    var l2 := FirstKeywordLabel(rawLine, t2);
    assert l2 == if Contains(rawLine, "connection") then "Connection" else l3;
  }

  /** A first-match lookup whose labels are never 'Unknown' answers
      'Unknown' exactly when the line holds none of the keywords. */
  lemma {:induction false} FirstKeywordUnknown(rawLine: string, table: seq<(string, string)>)
    requires forall k :: 0 <= k < |table| ==> table[k].1 != "Unknown"
    ensures FirstKeywordLabel(rawLine, table) == "Unknown" <==>
              forall k :: 0 <= k < |table| ==> !Contains(rawLine, table[k].0)
  {
    if table != [] {
      FirstKeywordUnknown(rawLine, table[1..]);
      assert forall k :: 1 <= k < |table| ==> table[k] == table[1..][k - 1];
    }
  }

  /** A line is 'Unknown' exactly when it holds none of the keywords. */
  lemma ClassifyUnknown(rawLine: string)
    ensures ClassifyAction(rawLine) == "Unknown" <==>
              forall k :: 0 <= k < |ActionKeywords| ==> !Contains(rawLine, ActionKeywords[k].0)
  {
    ClassifyByTable(rawLine);
    FirstKeywordUnknown(rawLine, ActionKeywords);
  }

  /** The end of the run of digits that starts at `i`. */
  function DigitsEnd(s: string, i: nat): (j: nat)
    requires i <= |s|
    ensures i <= j <= |s|
    ensures forall k :: i <= k < j ==> IsDigit(s[k])
    ensures j < |s| ==> !IsDigit(s[j])
    decreases |s| - i
  {
    if i < |s| && IsDigit(s[i]) then DigitsEnd(s, i + 1) else i
  }

  /** A run of at least one digit from `i` followed by a dot: the index past
      the dot. */
  function DigitsDot(s: string, i: nat): (r: Option<nat>)
    requires i <= |s|
    ensures r.Some? ==> i + 2 <= r.value <= |s| && s[r.value - 1] == '.' &&
                        forall k :: i <= k < r.value - 1 ==> IsDigit(s[k])
  {
    var j := DigitsEnd(s, i);
    if i < j < |s| && s[j] == '.' then Some(j + 1) else None
  }

  /** Four non-empty runs of digits joined by dots. */
  ghost predicate IsDottedQuad(t: string)
  {
    exists a, b, c :: 0 < a && a + 1 < b && b + 1 < c && c + 1 < |t| && DotsAt(t, a, b, c)
  }

  ghost predicate DotsAt(t: string, a: nat, b: nat, c: nat)
    requires a < b < c < |t|
  {
    t[a] == '.' && t[b] == '.' && t[c] == '.' &&
    (forall k :: 0 <= k < |t| && k != a && k != b && k != c ==> IsDigit(t[k]))
  }

  /** The end of a match of `\d+\.\d+\.\d+\.\d+` starting at `i`, if
      there is one. A digit is never a dot, so each `\d+` takes the whole run
      of digits and backtracking finds no other match. */
  function QuadAt(s: string, i: nat): (r: Option<nat>)
    ensures r.Some? ==> i < r.value <= |s| && IsDottedQuad(s[i..r.value])
    ensures r.Some? ==> r.value == |s| || !IsDigit(s[r.value])
  {
    if i > |s| then None
    else
    var a := DigitsDot(s, i);
    if a.None? then None
    else
      var b := DigitsDot(s, a.value);
      if b.None? then None
      else
        var c := DigitsDot(s, b.value);
        if c.None? then None
        else
          var d := DigitsEnd(s, c.value);
          if d > c.value then
            QuadShape(s, i, a.value, b.value, c.value, d);
            Some(d)
          else None
  }

  lemma QuadShape(s: string, i: nat, a: nat, b: nat, c: nat, d: nat)
    requires i + 2 <= a && a + 2 <= b && b + 2 <= c && c < d <= |s|
    requires s[a - 1] == '.' && s[b - 1] == '.' && s[c - 1] == '.'
    requires forall k :: i <= k < d && k != a - 1 && k != b - 1 && k != c - 1 ==> IsDigit(s[k])
    ensures IsDottedQuad(s[i..d])
  {
    var t := s[i..d];
    assert DotsAt(t, a - 1 - i, b - 1 - i, c - 1 - i);
  }

  /** The first position from `from` to `last` where `m` matches: the
      position and what `m` answers there. */
  function FirstMatch(m: nat -> Option<nat>, from: nat, last: nat): (r: Option<(nat, nat)>)
    requires from <= last
    ensures r.Some? ==> from <= r.value.0 <= last && m(r.value.0) == Some(r.value.1)
    ensures r.Some? ==> forall k :: from <= k < r.value.0 ==> m(k).None?
    ensures r.None? ==> forall k :: from <= k <= last ==> m(k).None?
    decreases last - from
  {
    if m(from).Some? then Some((from, m(from).value))
    else if from == last then None
    else FirstMatch(m, from + 1, last)
  }

  /** The leftmost match at or after `from`: its start and end. */
  function FirstQuad(s: string, from: nat): (r: Option<(nat, nat)>)
    requires from <= |s|
    ensures r.Some? ==> from <= r.value.0 <= |s| && QuadAt(s, r.value.0) == Some(r.value.1)
    ensures r.Some? ==> forall k :: from <= k < r.value.0 ==> QuadAt(s, k).None?
    ensures r.None? ==> forall k :: from <= k <= |s| ==> QuadAt(s, k).None?
  {
    var m := (k: nat) => QuadAt(s, k);
    assert forall k: nat :: m(k) == QuadAt(s, k);
    FirstMatch(m, from, |s|)
  }

  /** `s.match(/(\d+\.\d+\.\d+\.\d+)/g)` from `from`: the matched texts,
      left to right, each search resuming where the last match ended. */
  function QuadMatches(s: string, from: nat): (r: seq<string>)
    requires from <= |s|
    ensures forall k :: 0 <= k < |r| ==> IsDottedQuad(r[k])
    ensures r == [] <==> FirstQuad(s, from).None?
    ensures r != [] ==> r[0] == s[FirstQuad(s, from).value.0..FirstQuad(s, from).value.1]
    decreases |s| - from
  {
    var first := FirstQuad(s, from);
    if first.None? then []
    else
      var rest := QuadMatches(s, first.value.1);
      [s[first.value.0..first.value.1]] + rest
  }

  /** "N/A" has no digit, so it never stands for a found address. */
  lemma NotAvailableIsNoQuad()
    ensures !IsDottedQuad("N/A")
  {
  }

  /** The source and destination of a dashboard row (main.ts): the first
      and the second address-shaped match, 'N/A' for each that is missing. */
  function Endpoints(rawLine: string): (r: (string, string))
    ensures r.0 == "N/A" <==> forall k :: 0 <= k <= |rawLine| ==> QuadAt(rawLine, k).None?
    ensures r.0 != "N/A" ==>
              (IsDottedQuad(r.0) &&
               exists k, e :: 0 <= k < e <= |rawLine| && QuadAt(rawLine, k) == Some(e) && r.0 == rawLine[k..e] &&
                              forall j :: 0 <= j < k ==> QuadAt(rawLine, j).None?)
    ensures r.1 != "N/A" ==> IsDottedQuad(r.1) && r.0 != "N/A"
    ensures var f := FirstQuad(rawLine, 0);
            r.1 == if f.Some? && FirstQuad(rawLine, f.value.1).Some?
                   then rawLine[FirstQuad(rawLine, f.value.1).value.0..FirstQuad(rawLine, f.value.1).value.1]
                   else "N/A"
  {
    NotAvailableIsNoQuad();
    var ms := QuadMatches(rawLine, 0);
    var f := FirstQuad(rawLine, 0);
    assert f.Some? ==> ms == [rawLine[f.value.0..f.value.1]] + QuadMatches(rawLine, f.value.1);
    (if |ms| >= 1 then ms[0] else "N/A", if |ms| >= 2 then ms[1] else "N/A")
  }

  /** A row of the dashboard's events table. */
  datatype DashboardRow = DashboardRow(action: string, source: string, destination: string, message: string)

  /** The parsed part of a dashboard row (main.ts): the raw line is the
      event's `rawline.rawline`, or 'No raw line' when that is falsy, and is
      the message unchanged; the action and the endpoints come from it.
      Reading a field of a null event throws, and so does searching a raw line
      that is not a string. */
  function DashboardRowOf(event: Js): (r: Result<DashboardRow, Thrown>)
    ensures Nullish(event) ==> r == Failure(TypeError)
    ensures !Nullish(event) && !Truthy(Get(Get(event, "rawline"), "rawline")) ==>
              r.Success? && r.value.message == "No raw line"
    ensures r.Success? ==> Or(Get(Get(event, "rawline"), "rawline"), Str("No raw line")) == Str(r.value.message)
    ensures r.Success? ==> r.value.action == ClassifyAction(r.value.message) &&
                           (r.value.source, r.value.destination) == Endpoints(r.value.message)
  {
    if Nullish(event) then Failure(TypeError)
    else
      var rawLine := Or(Get(Get(event, "rawline"), "rawline"), Str("No raw line"));
      if !rawLine.Str? then Failure(TypeError)
      else
        var ends := Endpoints(rawLine.s);
        Success(DashboardRow(ClassifyAction(rawLine.s), ends.0, ends.1, rawLine.s))
  }
}
