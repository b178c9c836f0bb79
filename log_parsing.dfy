/** What `LogfileService.parseLogLine` does to one raw line, as functions: six
    pattern branches run in a fixed order on the same record, each may set
    devices, ports, the action, the message and entries of the parsed data,
    and a later branch overwrites what an earlier one set. */
module LogParsing {
  import opened Wrappers
  import opened Text
  import opened Entities
  import opened LogPatterns

  /** What the parser consults besides the line: the devices in the order the
      database returns them, and `InetAddress.getByName` (None when it throws
      `UnknownHostException`). */
  datatype Directory = Directory(devices: seq<Device>, resolve: string -> Option<InetAddress>)

  // ---------------------------------------------------------------- devices

  /** `DeviceService.getDeviceByIpAddress`: the first device with that address. */
  function DeviceByIp(devices: seq<Device>, addr: InetAddress): (r: Option<Device>)
    ensures r.None? <==> forall k :: 0 <= k < |devices| ==> devices[k].ipaddress != Some(addr)
    ensures r.Some? ==> exists k :: 0 <= k < |devices| && devices[k] == r.value &&
                          r.value.ipaddress == Some(addr) &&
                          forall j :: 0 <= j < k ==> devices[j].ipaddress != Some(addr)
  {
    if devices == [] then None
    else if devices[0].ipaddress == Some(addr) then Some(devices[0])
    else
      var r := DeviceByIp(devices[1..], addr);
      assert forall k :: 1 <= k < |devices| ==> devices[k] == devices[1..][k - 1];
      r
  }

  function HostCount(devices: seq<Device>, h: string): (n: nat)
    ensures n <= |devices|
    ensures n == 0 <==> forall k :: 0 <= k < |devices| ==> devices[k].hostname != Some(h)
  {
    if devices == [] then 0
    else
      var rest := HostCount(devices[1..], h);
      assert forall k :: 1 <= k < |devices| ==> devices[k] == devices[1..][k - 1];
      (if devices[0].hostname == Some(h) then 1 else 0) + rest
  }

  function FirstWithHost(devices: seq<Device>, h: string): (d: Device)
    requires HostCount(devices, h) > 0
    ensures d in devices && d.hostname == Some(h)
  {
    if devices[0].hostname == Some(h) then devices[0] else FirstWithHost(devices[1..], h)
  }

  /** The three outcomes of `DeviceRepository.findByHostname`, whose Optional
      result makes Spring Data throw when more than one device matches. */
  datatype HostLookup = NoDevice | OneDevice(device: Device) | SeveralDevices

  function DeviceByHostname(devices: seq<Device>, h: string): (r: HostLookup)
    ensures r == NoDevice <==> forall k :: 0 <= k < |devices| ==> devices[k].hostname != Some(h)
    ensures r.OneDevice? ==> r.device in devices && r.device.hostname == Some(h) && HostCount(devices, h) == 1
    ensures r == SeveralDevices <==> HostCount(devices, h) >= 2
  {
    var n := HostCount(devices, h);
    if n == 0 then NoDevice
    else if n == 1 then OneDevice(FirstWithHost(devices, h))
    else SeveralDevices
  }

  // ---------------------------------------------------------------- actions

  /** `actionService.getActionByName(name).orElseGet(...)`: the stored action of
      that name, or a new one without a category that is saved on the spot. The
      raw line then refers to the action by its name. */
  function EnsureAction(catalog: map<string, Action>, name: string): (r: map<string, Action>)
    ensures name in r && r.Keys == catalog.Keys + {name}
    ensures forall n :: n in catalog ==> r[n] == catalog[n]
    ensures name !in catalog ==> r[name] == Action(name, None)
    ensures CatalogKeyed(catalog) ==> CatalogKeyed(r)
  {
    if name in catalog then catalog else catalog[name := Action(name, None)]
  }

  /** Looking the same name up again changes nothing. */
  lemma EnsureActionIdempotent(catalog: map<string, Action>, name: string)
    ensures EnsureAction(EnsureAction(catalog, name), name) == EnsureAction(catalog, name)
  {
  }

  // ---------------------------------------------------------------- ports

  /** `Integer.parseInt` of an optional port group. */
  datatype PortParse = NoPort | Port(value: int) | PortOverflow

  function ParsePort(group: Option<string>): (r: PortParse)
    ensures group.None? <==> r == NoPort
    ensures r.Port? ==> 0 <= r.value <= Int32Max
    ensures group.Some? && group.value != [] && AllDigits(group.value) ==>
              (r == PortOverflow <==> DigitsValue(group.value) > Int32Max)
  {
    match group
    case None => NoPort
    case Some(g) =>
      match ParseJavaInt(g)
      case None => PortOverflow
      case Some(v) => if v < 0 then PortOverflow else Port(v)
  }

  /** The value of a port group that parsed. */
  function PortValue(group: Option<string>): Option<int>
  {
    match ParsePort(group)
    case Port(v) => Some(v)
    case _ => None
  }

  function PortSuffix(group: Option<string>): string
  {
    match group
    case None => ""
    case Some(p) => ":" + p
  }

  // ---------------------------------------------------------------- state

  /** The raw line being filled in and the action catalog (which the parser
      saves to as it goes). */
  datatype ParseState = ParseState(rawline: Rawline, catalog: map<string, Action>)

  /** A branch either completes or throws; actions saved before the throw stay. */
  datatype ParseOutcome = Done(state: ParseState) | Threw(catalog: map<string, Action>)

  /** The record `parseAndCreateRawline` starts from: the line is the key and
      the default message; everything else is null. */
  function InitialRawline(line: string): (r: Rawline)
    ensures r.rawline == line && r.message == Some(line)
  {
    Rawline(line, None, None, None, None, None, Some(line), None)
  }

  function Put(pd: Option<ParsedData>, entries: ParsedData): (r: Option<ParsedData>)
    ensures r.Some? && entries.Keys <= r.value.Keys
    ensures pd.Some? ==> pd.value.Keys <= r.value.Keys
    ensures forall k :: k in entries ==> r.value[k] == entries[k]
    ensures forall k :: k in r.value && k !in entries ==> pd.Some? && k in pd.value && r.value[k] == pd.value[k]
  {
    Some(pd.GetOr(map[]) + entries)
  }

  // ---------------------------------------------------------------- branches

  /** What the seven patterns of the parser find in one line. */
  datatype Matches = Matches(
    timestampHost: Option<TimestampHost>,
    login: Option<string>,
    reason: Option<string>,
    connection: Option<Connection>,
    http: Option<HttpRequest>,
    sourceIp: Option<Address>,
    destinationIp: Option<Address>)

  function MatchesOf(line: string): Matches
  {
    Matches(MatchTimestampHost(line), FindLogin(line), FindReason(line), FindConnection(line),
            FindHttp(line), FindSourceIp(line), FindDestinationIp(line))
  }

  /** Branch 1 (lines 142-159): the parsed data becomes exactly the timestamp and
      hostname; the hostname's device, if any, is the source device. A hostname
      shared by several devices makes the repository throw. */
  function TimestampStep(st: ParseState, t: Option<TimestampHost>, dir: Directory): (r: ParseOutcome)
    ensures t.None? ==> r == Done(st)
    ensures r.Threw? <==> t.Some? && DeviceByHostname(dir.devices, t.value.hostname) == SeveralDevices
    ensures r.Threw? ==> r.catalog == st.catalog
    ensures r.Done? && t.Some? ==>
              var lookup := DeviceByHostname(dir.devices, t.value.hostname);
              r.state.catalog == st.catalog &&
              r.state.rawline == st.rawline.(
                sourcedeviceid := if lookup.OneDevice? then Some(lookup.device.id) else st.rawline.sourcedeviceid,
                parseddata := Some(map["timestamp" := t.value.timestamp, "hostname" := t.value.hostname]))
  {
    match t
    case None => Done(st)
    case Some(th) =>
      var data := Some(map["timestamp" := th.timestamp, "hostname" := th.hostname]);
      match DeviceByHostname(dir.devices, th.hostname)
      case SeveralDevices => Threw(st.catalog)
      case NoDevice => Done(st.(rawline := st.rawline.(parseddata := data)))
      case OneDevice(d) => Done(st.(rawline := st.rawline.(sourcedeviceid := Some(d.id), parseddata := data)))
  }

  const LoginFailed: string := "LOGIN_FAILED"
  const ConnectionAction: string := "CONNECTION"

  /** Branch 2 (lines 162-193): action LOGIN_FAILED and a message naming the
      user; the parsed data gains the user and the trimmed reason only when a
      `Reason:` is found as well. */
  function LoginStep(st: ParseState, login: Option<string>, reason: Option<string>): (r: ParseState)
    ensures r.catalog == (if login.Some? then EnsureAction(st.catalog, LoginFailed) else st.catalog)
    ensures r.rawline == st.rawline.(
              action := if login.Some? then Some(LoginFailed) else st.rawline.action,
              message := if login.Some? then Some("Failed login attempt for user " + login.value) else st.rawline.message,
              parseddata := if login.Some? && reason.Some?
                            then Put(st.rawline.parseddata, map["username" := login.value, "failureReason" := Trim(reason.value)])
                            else st.rawline.parseddata)
  {
    match login
    case None => st
    case Some(user) =>
      var cat := EnsureAction(st.catalog, LoginFailed);
      var rl := st.rawline.(action := Some(LoginFailed), message := Some("Failed login attempt for user " + user));
      var rl1 :=
        match reason
        case None => rl
        case Some(why) => rl.(parseddata := Put(rl.parseddata, map["username" := user, "failureReason" := Trim(why)]));
      ParseState(rl1, cat)
  }

  /** The device of an address, when the address resolves and a device has it. */
  function DeviceOf(dir: Directory, text: string): Option<Device>
  {
    match dir.resolve(text)
    case None => None
    case Some(addr) => DeviceByIp(dir.devices, addr)
  }

  function WithDevice(rl: Rawline, source: bool, d: Option<Device>): Rawline
  {
    match d
    case None => rl
    case Some(dev) => if source then rl.(sourcedeviceid := Some(dev.id)) else rl.(destinationdeviceid := Some(dev.id))
  }

  function ConnectionMessage(c: Connection): string
  {
    "Connection from " + c.src + PortSuffix(c.srcPort) + " to " + c.dst + PortSuffix(c.dstPort)
  }

  /** Branch 3 (lines 196-266). The source device is looked up only when the
      source resolves, the destination device only when both resolve (the
      `UnknownHostException` handler skips what is left of the lookups); ports
      are parsed in both paths, and an overflowing one throws out of the parser
      before the action is saved. */
  function ConnectionStep(st: ParseState, conn: Option<Connection>, dir: Directory): (r: ParseOutcome)
    ensures conn.None? ==> r == Done(st)
    ensures r.Threw? <==> conn.Some? &&
                          (ParsePort(conn.value.srcPort) == PortOverflow || ParsePort(conn.value.dstPort) == PortOverflow)
    ensures r.Threw? ==> r.catalog == st.catalog
    ensures r.Done? && conn.Some? ==>
              var c := conn.value;
              var src := DeviceOf(dir, c.src);
              var dst := if dir.resolve(c.src).Some? then DeviceOf(dir, c.dst) else None;
              r.state.catalog == EnsureAction(st.catalog, ConnectionAction) &&
              r.state.rawline == st.rawline.(
                sourcedeviceid := if src.Some? then Some(src.value.id) else st.rawline.sourcedeviceid,
                destinationdeviceid := if dst.Some? then Some(dst.value.id) else st.rawline.destinationdeviceid,
                sourceport := if c.srcPort.Some? then PortValue(c.srcPort) else st.rawline.sourceport,
                destinationport := if c.dstPort.Some? then PortValue(c.dstPort) else st.rawline.destinationport,
                action := Some(ConnectionAction),
                message := Some(ConnectionMessage(c)))
  {
    match conn
    case None => Done(st)
    case Some(c) =>
      var srcDevice := DeviceOf(dir, c.src);
      var dstDevice := if dir.resolve(c.src).Some? then DeviceOf(dir, c.dst) else None;
      var rl := WithDevice(WithDevice(st.rawline, true, srcDevice), false, dstDevice);
      if ParsePort(c.srcPort) == PortOverflow || ParsePort(c.dstPort) == PortOverflow then Threw(st.catalog)
      else
        var rl1 := if c.srcPort.Some? then rl.(sourceport := PortValue(c.srcPort)) else rl;
        var rl2 := if c.dstPort.Some? then rl1.(destinationport := PortValue(c.dstPort)) else rl1;
        var cat := EnsureAction(st.catalog, ConnectionAction);
        Done(ParseState(rl2.(action := Some(ConnectionAction), message := Some(ConnectionMessage(c))), cat))
  }

  function HttpMessage(h: HttpRequest): string
  {
    "HTTP " + h.verb + " request to " + h.url + " returned " + h.statusCode
  }

  /** Branch 4 (lines 269-298): the method is the action, the parsed data gains
      the URL and status code beside what it held, and the message names them. */
  function HttpStep(st: ParseState, http: Option<HttpRequest>): (r: ParseState)
    ensures r.catalog == (if http.Some? then EnsureAction(st.catalog, http.value.verb) else st.catalog)
    ensures r.rawline == if http.None? then st.rawline else st.rawline.(
              action := Some(http.value.verb),
              message := Some(HttpMessage(http.value)),
              parseddata := Put(st.rawline.parseddata, map["url" := http.value.url, "statusCode" := http.value.statusCode]))
  {
    match http
    case None => st
    case Some(h) =>
      var cat := EnsureAction(st.catalog, h.verb);
      var rl := st.rawline;
      ParseState(rl.(action := Some(h.verb),
                     parseddata := Put(rl.parseddata, map["url" := h.url, "statusCode" := h.statusCode]),
                     message := Some(HttpMessage(h))), cat)
  }

  /** Branches 5 and 6 (lines 301-406): the device of the address when one is
      found, the port when the pattern has one, and the address text in the
      parsed data under `sourceIp` or `destinationIp`, whether or not the
      address resolves. */
  function AddressStep(st: ParseState, addr: Option<Address>, dir: Directory, source: bool): (r: ParseOutcome)
    ensures addr.None? ==> r == Done(st)
    ensures r.Threw? <==> addr.Some? && ParsePort(addr.value.port) == PortOverflow
    ensures r.Threw? ==> r.catalog == st.catalog
    ensures r.Done? && addr.Some? ==>
              var a := addr.value;
              var dev := DeviceOf(dir, a.ip);
              var rl := st.rawline;
              r.state.catalog == st.catalog &&
              r.state.rawline == (if source then rl.(
                  sourcedeviceid := if dev.Some? then Some(dev.value.id) else rl.sourcedeviceid,
                  sourceport := if a.port.Some? then PortValue(a.port) else rl.sourceport,
                  parseddata := Put(rl.parseddata, map["sourceIp" := a.ip]))
                else rl.(
                  destinationdeviceid := if dev.Some? then Some(dev.value.id) else rl.destinationdeviceid,
                  destinationport := if a.port.Some? then PortValue(a.port) else rl.destinationport,
                  parseddata := Put(rl.parseddata, map["destinationIp" := a.ip])))
  {
    match addr
    case None => Done(st)
    case Some(a) =>
      var rl := WithDevice(st.rawline, source, DeviceOf(dir, a.ip));
      var key := if source then "sourceIp" else "destinationIp";
      match ParsePort(a.port)
      case PortOverflow => Threw(st.catalog)
      case NoPort => Done(st.(rawline := rl.(parseddata := Put(rl.parseddata, map[key := a.ip]))))
      case Port(v) =>
        var rl1 := if source then rl.(sourceport := Some(v)) else rl.(destinationport := Some(v));
        Done(st.(rawline := rl1.(parseddata := Put(rl1.parseddata, map[key := a.ip]))))
  }

  /** The branches in the order the code runs them, over what the patterns found. */
  function ParseWith(m: Matches, st: ParseState, dir: Directory): ParseOutcome
  {
    match TimestampStep(st, m.timestampHost, dir)
    case Threw(c) => Threw(c)
    case Done(st1) =>
      match ConnectionStep(LoginStep(st1, m.login, m.reason), m.connection, dir)
      case Threw(c) => Threw(c)
      case Done(st3) =>
        match AddressStep(HttpStep(st3, m.http), m.sourceIp, dir, true)
        case Threw(c) => Threw(c)
        case Done(st5) => AddressStep(st5, m.destinationIp, dir, false)
  }

  /** `parseLogLine(rawline, line)`. */
  function ParseLine(line: string, st: ParseState, dir: Directory): ParseOutcome
  {
    ParseWith(MatchesOf(line), st, dir)
  }
}

/** Properties of `parseLogLine`, stated against a field-by-field reference: for
    each field of the raw line, the last branch that sets it decides it. */
module LogParsingFacts {
  import opened Wrappers
  import opened Text
  import opened Entities
  import opened LogPatterns
  import opened LogParsing

  /** The parser throws exactly when the hostname names several devices or a
      matched port does not fit in an `int`. */
  predicate Throws(m: Matches, dir: Directory)
  {
    (m.timestampHost.Some? && DeviceByHostname(dir.devices, m.timestampHost.value.hostname) == SeveralDevices) ||
    (m.connection.Some? && (ParsePort(m.connection.value.srcPort) == PortOverflow ||
                            ParsePort(m.connection.value.dstPort) == PortOverflow)) ||
    (m.sourceIp.Some? && ParsePort(m.sourceIp.value.port) == PortOverflow) ||
    (m.destinationIp.Some? && ParsePort(m.destinationIp.value.port) == PortOverflow)
  }

  lemma ParseThrowsExactly(m: Matches, st: ParseState, dir: Directory)
    ensures ParseWith(m, st, dir).Threw? <==> Throws(m, dir)
  {
  }

  /** Action: the HTTP method, else CONNECTION, else LOGIN_FAILED, else none. */
  function ExpectedAction(m: Matches): Option<string>
  {
    if m.http.Some? then Some(m.http.value.verb)
    else if m.connection.Some? then Some(ConnectionAction)
    else if m.login.Some? then Some(LoginFailed)
    else None
  }

  /** Message: the HTTP text, else the connection text, else the login text,
      else the line itself. */
  function ExpectedMessage(m: Matches, line: string): string
  {
    if m.http.Some? then HttpMessage(m.http.value)
    else if m.connection.Some? then ConnectionMessage(m.connection.value)
    else if m.login.Some? then "Failed login attempt for user " + m.login.value
    else line
  }

  /** Source port: from `Source IP:` when it has one, else from the connection. */
  function ExpectedSourcePort(m: Matches): Option<int>
  {
    if m.sourceIp.Some? && m.sourceIp.value.port.Some? then PortValue(m.sourceIp.value.port)
    else if m.connection.Some? && m.connection.value.srcPort.Some? then PortValue(m.connection.value.srcPort)
    else None
  }

  function ExpectedDestinationPort(m: Matches): Option<int>
  {
    if m.destinationIp.Some? && m.destinationIp.value.port.Some? then PortValue(m.destinationIp.value.port)
    else if m.connection.Some? && m.connection.value.dstPort.Some? then PortValue(m.connection.value.dstPort)
    else None
  }

  /** Source device: the one found for `Source IP:`, else for the connection's
      source, else for the hostname. */
  function ExpectedSourceDevice(m: Matches, dir: Directory): Option<int>
  {
    var t, c, s := m.timestampHost, m.connection, m.sourceIp;
    if s.Some? && DeviceOf(dir, s.value.ip).Some? then Some(DeviceOf(dir, s.value.ip).value.id)
    else if c.Some? && DeviceOf(dir, c.value.src).Some? then Some(DeviceOf(dir, c.value.src).value.id)
    else if t.Some? && DeviceByHostname(dir.devices, t.value.hostname).OneDevice? then
      Some(DeviceByHostname(dir.devices, t.value.hostname).device.id)
    else None
  }

  /** Destination device: the one found for `Destination IP:`, else for the
      connection's destination provided its source resolved. */
  function ExpectedDestinationDevice(m: Matches, dir: Directory): Option<int>
  {
    var c, d := m.connection, m.destinationIp;
    if d.Some? && DeviceOf(dir, d.value.ip).Some? then Some(DeviceOf(dir, d.value.ip).value.id)
    else if c.Some? && dir.resolve(c.value.src).Some? && DeviceOf(dir, c.value.dst).Some? then
      Some(DeviceOf(dir, c.value.dst).value.id)
    else None
  }

  function TimestampEntries(m: Matches): ParsedData
  {
    if m.timestampHost.Some? then map["timestamp" := m.timestampHost.value.timestamp, "hostname" := m.timestampHost.value.hostname]
    else map[]
  }

  function LoginEntries(m: Matches): ParsedData
  {
    if m.login.Some? && m.reason.Some? then map["username" := m.login.value, "failureReason" := Trim(m.reason.value)]
    else map[]
  }

  function HttpEntries(m: Matches): ParsedData
  {
    if m.http.Some? then map["url" := m.http.value.url, "statusCode" := m.http.value.statusCode] else map[]
  }

  function SourceEntries(m: Matches): ParsedData
  {
    if m.sourceIp.Some? then map["sourceIp" := m.sourceIp.value.ip] else map[]
  }

  function DestinationEntries(m: Matches): ParsedData
  {
    if m.destinationIp.Some? then map["destinationIp" := m.destinationIp.value.ip] else map[]
  }

  /** Parsed data: the entries of every branch that contributes some (the login
      entries only when a reason is present too); null when none does. */
  function ExpectedParsedData(m: Matches): Option<ParsedData>
  {
    if m.timestampHost.None? && !(m.login.Some? && m.reason.Some?) && m.http.None? &&
       m.sourceIp.None? && m.destinationIp.None? then None
    else Some(TimestampEntries(m) + LoginEntries(m) + HttpEntries(m) + SourceEntries(m) + DestinationEntries(m))
  }

  function ExpectedRawline(m: Matches, line: string, dir: Directory): Rawline
  {
    Rawline(line, ExpectedSourceDevice(m, dir), ExpectedSourcePort(m),
            ExpectedDestinationDevice(m, dir), ExpectedDestinationPort(m),
            ExpectedAction(m), Some(ExpectedMessage(m, line)), ExpectedParsedData(m))
  }

  /** Actions the branches that ran refer to. */
  function ExpectedActionNames(m: Matches): set<string>
  {
    (if m.login.Some? then {LoginFailed} else {}) +
    (if m.connection.Some? then {ConnectionAction} else {}) +
    (if m.http.Some? then {m.http.value.verb} else {})
  }

  lemma EmptyUnion(a: ParsedData)
    ensures map[] + a == a && a + map[] == a
  {
  }

  /** A line that does not throw yields the record the reference describes:
      the key is the line, and each field comes from the last branch that set it. */
  lemma ParseFields(m: Matches, line: string, catalog: map<string, Action>, dir: Directory)
    requires !Throws(m, dir)
    ensures ParseWith(m, ParseState(InitialRawline(line), catalog), dir).Done?
    ensures ParseWith(m, ParseState(InitialRawline(line), catalog), dir).state.rawline == ExpectedRawline(m, line, dir)
  {
    ParseParsedData(m, line, catalog, dir);
    ParseSourceDevice(m, line, catalog, dir);
    ParseDestinationDevice(m, line, catalog, dir);
    ParseKey(m, line, catalog, dir);
    ParseSourcePort(m, line, catalog, dir);
    ParseDestinationPort(m, line, catalog, dir);
    ParseActionMessage(m, line, catalog, dir);
  }

  /** The parsed data of a line that does not throw. */
  lemma ParseParsedData(m: Matches, line: string, catalog: map<string, Action>, dir: Directory)
    requires !Throws(m, dir)
    ensures ParseWith(m, ParseState(InitialRawline(line), catalog), dir).Done?
    ensures var rl := ParseWith(m, ParseState(InitialRawline(line), catalog), dir).state.rawline;
            rl.parseddata == ExpectedParsedData(m)
  {
    var st0 := ParseState(InitialRawline(line), catalog);
    var o1 := TimestampStep(st0, m.timestampHost, dir);
    var st2 := LoginStep(o1.state, m.login, m.reason);
    var o3 := ConnectionStep(st2, m.connection, dir);
    var st4 := HttpStep(o3.state, m.http);
    var o5 := AddressStep(st4, m.sourceIp, dir, true);
    var o6 := AddressStep(o5.state, m.destinationIp, dir, false);
    assert ParseWith(m, st0, dir) == o6;
    var p1 := if m.timestampHost.Some? then Some(TimestampEntries(m)) else None;
    assert o1.state.rawline.parseddata == p1;
    var p2 := if m.login.Some? && m.reason.Some? then Some(TimestampEntries(m) + LoginEntries(m)) else p1;
    assert st2.rawline.parseddata == p2;
    assert o3.state.rawline.parseddata == p2;
    var p4 := if m.http.Some? then Some(TimestampEntries(m) + LoginEntries(m) + HttpEntries(m)) else p2;
    EmptyUnion(TimestampEntries(m));
    EmptyUnion(HttpEntries(m));
    EmptyUnion(LoginEntries(m));
    EmptyUnion(TimestampEntries(m) + LoginEntries(m));
    assert st4.rawline.parseddata == p4;
    var p5 := if m.sourceIp.Some? then Some(TimestampEntries(m) + LoginEntries(m) + HttpEntries(m) + SourceEntries(m)) else p4;
    EmptyUnion(TimestampEntries(m) + LoginEntries(m) + HttpEntries(m));
    EmptyUnion(SourceEntries(m));
    assert o5.state.rawline.parseddata == p5;
    EmptyUnion(TimestampEntries(m) + LoginEntries(m) + HttpEntries(m) + SourceEntries(m));
    EmptyUnion(DestinationEntries(m));
  }

  /** The source device of a line that does not throw. */
  lemma ParseSourceDevice(m: Matches, line: string, catalog: map<string, Action>, dir: Directory)
    requires !Throws(m, dir)
    ensures ParseWith(m, ParseState(InitialRawline(line), catalog), dir).Done?
    ensures var rl := ParseWith(m, ParseState(InitialRawline(line), catalog), dir).state.rawline;
            rl.sourcedeviceid == ExpectedSourceDevice(m, dir)
  {
    var st0 := ParseState(InitialRawline(line), catalog);
    var o1 := TimestampStep(st0, m.timestampHost, dir);
    var st2 := LoginStep(o1.state, m.login, m.reason);
    var o3 := ConnectionStep(st2, m.connection, dir);
    var st4 := HttpStep(o3.state, m.http);
    var o5 := AddressStep(st4, m.sourceIp, dir, true);
    var o6 := AddressStep(o5.state, m.destinationIp, dir, false);
    assert ParseWith(m, st0, dir) == o6;
    var t, c := m.timestampHost, m.connection;
    var d1 := if t.Some? && DeviceByHostname(dir.devices, t.value.hostname).OneDevice?
              then Some(DeviceByHostname(dir.devices, t.value.hostname).device.id) else None;
    assert st2.rawline.sourcedeviceid == d1;
    var d3 := if c.Some? && DeviceOf(dir, c.value.src).Some? then Some(DeviceOf(dir, c.value.src).value.id) else d1;
    assert st4.rawline.sourcedeviceid == d3;
  }

  /** The destination device of a line that does not throw. */
  lemma ParseDestinationDevice(m: Matches, line: string, catalog: map<string, Action>, dir: Directory)
    requires !Throws(m, dir)
    ensures ParseWith(m, ParseState(InitialRawline(line), catalog), dir).Done?
    ensures var rl := ParseWith(m, ParseState(InitialRawline(line), catalog), dir).state.rawline;
            rl.destinationdeviceid == ExpectedDestinationDevice(m, dir)
  {
    var st0 := ParseState(InitialRawline(line), catalog);
    var o1 := TimestampStep(st0, m.timestampHost, dir);
    var st2 := LoginStep(o1.state, m.login, m.reason);
    var o3 := ConnectionStep(st2, m.connection, dir);
    var st4 := HttpStep(o3.state, m.http);
    var o5 := AddressStep(st4, m.sourceIp, dir, true);
    var o6 := AddressStep(o5.state, m.destinationIp, dir, false);
    assert ParseWith(m, st0, dir) == o6;
    var c := m.connection;
    assert st2.rawline.destinationdeviceid == None;
    var d3 := if c.Some? && dir.resolve(c.value.src).Some? && DeviceOf(dir, c.value.dst).Some? then
                Some(DeviceOf(dir, c.value.dst).value.id) else None;
    assert o3.state.rawline.destinationdeviceid == d3;
    assert o5.state.rawline.destinationdeviceid == d3;
  }

  /** The key of a line that does not throw is the line. */
  lemma ParseKey(m: Matches, line: string, catalog: map<string, Action>, dir: Directory)
    requires !Throws(m, dir)
    ensures ParseWith(m, ParseState(InitialRawline(line), catalog), dir).Done?
    ensures var rl := ParseWith(m, ParseState(InitialRawline(line), catalog), dir).state.rawline;
            rl.rawline == line
  {
    var st0 := ParseState(InitialRawline(line), catalog);
    var o1 := TimestampStep(st0, m.timestampHost, dir);
    var st2 := LoginStep(o1.state, m.login, m.reason);
    var o3 := ConnectionStep(st2, m.connection, dir);
    var st4 := HttpStep(o3.state, m.http);
    var o5 := AddressStep(st4, m.sourceIp, dir, true);
    var o6 := AddressStep(o5.state, m.destinationIp, dir, false);
    assert ParseWith(m, st0, dir) == o6;
  }

  /** The source port of a line that does not throw. */
  lemma ParseSourcePort(m: Matches, line: string, catalog: map<string, Action>, dir: Directory)
    requires !Throws(m, dir)
    ensures ParseWith(m, ParseState(InitialRawline(line), catalog), dir).Done?
    ensures var rl := ParseWith(m, ParseState(InitialRawline(line), catalog), dir).state.rawline;
            rl.sourceport == ExpectedSourcePort(m)
  {
    var st0 := ParseState(InitialRawline(line), catalog);
    var o1 := TimestampStep(st0, m.timestampHost, dir);
    var st2 := LoginStep(o1.state, m.login, m.reason);
    var o3 := ConnectionStep(st2, m.connection, dir);
    var st4 := HttpStep(o3.state, m.http);
    var o5 := AddressStep(st4, m.sourceIp, dir, true);
    var o6 := AddressStep(o5.state, m.destinationIp, dir, false);
    assert ParseWith(m, st0, dir) == o6;
    assert st4.rawline.sourceport == o3.state.rawline.sourceport;
  }

  /** The destination port of a line that does not throw. */
  lemma ParseDestinationPort(m: Matches, line: string, catalog: map<string, Action>, dir: Directory)
    requires !Throws(m, dir)
    ensures ParseWith(m, ParseState(InitialRawline(line), catalog), dir).Done?
    ensures var rl := ParseWith(m, ParseState(InitialRawline(line), catalog), dir).state.rawline;
            rl.destinationport == ExpectedDestinationPort(m)
  {
    var st0 := ParseState(InitialRawline(line), catalog);
    var o1 := TimestampStep(st0, m.timestampHost, dir);
    var st2 := LoginStep(o1.state, m.login, m.reason);
    var o3 := ConnectionStep(st2, m.connection, dir);
    var st4 := HttpStep(o3.state, m.http);
    var o5 := AddressStep(st4, m.sourceIp, dir, true);
    var o6 := AddressStep(o5.state, m.destinationIp, dir, false);
    assert ParseWith(m, st0, dir) == o6;
    assert st4.rawline.destinationport == o3.state.rawline.destinationport;
  }

  /** Action and message of a line that does not throw. */
  lemma ParseActionMessage(m: Matches, line: string, catalog: map<string, Action>, dir: Directory)
    requires !Throws(m, dir)
    ensures ParseWith(m, ParseState(InitialRawline(line), catalog), dir).Done?
    ensures var rl := ParseWith(m, ParseState(InitialRawline(line), catalog), dir).state.rawline;
            rl.action == ExpectedAction(m) && rl.message == Some(ExpectedMessage(m, line))
  {
    var st0 := ParseState(InitialRawline(line), catalog);
    var o1 := TimestampStep(st0, m.timestampHost, dir);
    var st2 := LoginStep(o1.state, m.login, m.reason);
    var o3 := ConnectionStep(st2, m.connection, dir);
    var st4 := HttpStep(o3.state, m.http);
    var o5 := AddressStep(st4, m.sourceIp, dir, true);
    var o6 := AddressStep(o5.state, m.destinationIp, dir, false);
    assert ParseWith(m, st0, dir) == o6;
  }

  /** `after` holds what `before` held, and beyond that only actions named in
      `names`, each new one without a category. */
  predicate CatalogExtends(before: map<string, Action>, after: map<string, Action>, names: set<string>)
  {
    before.Keys <= after.Keys <= before.Keys + names &&
    (forall n :: n in before ==> after[n] == before[n]) &&
    (forall n :: n in after && n !in before ==> after[n] == Action(n, None))
  }

  lemma CatalogExtendsTrans(a: map<string, Action>, b: map<string, Action>, c: map<string, Action>, n1: set<string>, n2: set<string>)
    requires CatalogExtends(a, b, n1) && CatalogExtends(b, c, n2)
    ensures CatalogExtends(a, c, n1 + n2)
  {
  }

  function FinalCatalog(o: ParseOutcome): map<string, Action>
  {
    match o
    case Done(s) => s.catalog
    case Threw(c) => c
  }

  lemma EnsureActionExtends(c: map<string, Action>, name: string)
    ensures CatalogExtends(c, EnsureAction(c, name), {name})
  {
  }

  function LoginNames(m: Matches): set<string> { if m.login.Some? then {LoginFailed} else {} }
  function ConnectionNames(m: Matches): set<string> { if m.connection.Some? then {ConnectionAction} else {} }
  function HttpNames(m: Matches): set<string> { if m.http.Some? then {m.http.value.verb} else {} }

  /** The state after the login, connection and HTTP branches, when the first
      three branches do not throw. */
  lemma FirstBranchesExtend(m: Matches, st: ParseState, dir: Directory)
    requires TimestampStep(st, m.timestampHost, dir).Done?
    ensures var st2 := LoginStep(TimestampStep(st, m.timestampHost, dir).state, m.login, m.reason);
            CatalogExtends(st.catalog, st2.catalog, LoginNames(m)) &&
            (ConnectionStep(st2, m.connection, dir).Done? ==>
               CatalogExtends(st.catalog, HttpStep(ConnectionStep(st2, m.connection, dir).state, m.http).catalog,
                              LoginNames(m) + ConnectionNames(m) + HttpNames(m)))
  {
    var c0 := st.catalog;
    var st1 := TimestampStep(st, m.timestampHost, dir).state;
    assert st1.catalog == c0;
    var st2 := LoginStep(st1, m.login, m.reason);
    if m.login.Some? { EnsureActionExtends(c0, LoginFailed); }
    assert CatalogExtends(c0, st2.catalog, LoginNames(m));
    var o3 := ConnectionStep(st2, m.connection, dir);
    if o3.Done? {
      if m.connection.Some? { EnsureActionExtends(st2.catalog, ConnectionAction); }
      assert CatalogExtends(st2.catalog, o3.state.catalog, ConnectionNames(m));
      CatalogExtendsTrans(c0, st2.catalog, o3.state.catalog, LoginNames(m), ConnectionNames(m));
      var st4 := HttpStep(o3.state, m.http);
      if m.http.Some? { EnsureActionExtends(o3.state.catalog, m.http.value.verb); }
      assert CatalogExtends(o3.state.catalog, st4.catalog, HttpNames(m));
      CatalogExtendsTrans(c0, o3.state.catalog, st4.catalog, LoginNames(m) + ConnectionNames(m), HttpNames(m));
    }
  }

  lemma CatalogExtendsWider(a: map<string, Action>, b: map<string, Action>, n1: set<string>, n2: set<string>)
    requires CatalogExtends(a, b, n1) && n1 <= n2
    ensures CatalogExtends(a, b, n2)
  {
  }

  /** The catalog only gains the actions of the branches that ran, each new one
      without a category; stored actions are never altered, and actions saved
      before a throw stay saved. */
  lemma ParseCatalog(m: Matches, st: ParseState, dir: Directory)
    ensures CatalogExtends(st.catalog, FinalCatalog(ParseWith(m, st, dir)), ExpectedActionNames(m))
  {
    var names := ExpectedActionNames(m);
    assert names == LoginNames(m) + ConnectionNames(m) + HttpNames(m);
    var o1 := TimestampStep(st, m.timestampHost, dir);
    if o1.Threw? {
      assert CatalogExtends(st.catalog, st.catalog, {});
      return;
    }
    FirstBranchesExtend(m, st, dir);
    var st2 := LoginStep(o1.state, m.login, m.reason);
    var o3 := ConnectionStep(st2, m.connection, dir);
    if o3.Threw? {
      CatalogExtendsWider(st.catalog, st2.catalog, LoginNames(m), names);
      assert FinalCatalog(ParseWith(m, st, dir)) == st2.catalog;
      return;
    }
    var st4 := HttpStep(o3.state, m.http);
    var o5 := AddressStep(st4, m.sourceIp, dir, true);
    if o5.Threw? {
      assert FinalCatalog(ParseWith(m, st, dir)) == st4.catalog;
    } else {
      var o6 := AddressStep(o5.state, m.destinationIp, dir, false);
      assert FinalCatalog(o6) == st4.catalog;
      assert FinalCatalog(ParseWith(m, st, dir)) == st4.catalog;
    }
  }
}
