/** `LogfileService`: saving log files and turning an uploaded file's content
    into raw lines and events, one line at a time, with the line parser of
    `LogParsing` run against the live tables. */
module LogfileServices {
  import opened Wrappers
  import opened Text
  import opened Entities
  import opened Tables
  import opened LogPatterns
  import opened LogParsing
  import opened LogParsingFacts
  import opened Ingestion

  class LogfileService {
    const logfiles: LogfileTable
    const rawlines: RawlineTable
    const events: LogeventTable
    const actions: ActionTable
    const devices: DeviceTable
    /** `InetAddress.getByName`, None where it throws. */
    const resolve: string -> Option<InetAddress>
    /** The timestamp an event gets for its line: the one the line starts with
        or, failing that, the current time. */
    const stamp: string -> Instant
    /** The line parser over the devices as they stand. */
    ghost const parse: LineParser

    ghost predicate Valid()
      reads this, logfiles, events
    {
      logfiles.Valid() && events.Valid()
    }

    /** `parse` is the parser over the devices as they now stand. */
    ghost predicate ParserCurrent()
      reads this, devices
    {
      IsParser(parse, Dir())
    }

    /** What the parser consults. */
    function Dir(): Directory
      reads this, devices
    {
      Directory(devices.rows, resolve)
    }

    /** The tables a file's processing writes to. */
    function StoreOf(): Store
      reads this, rawlines, events, actions
    {
      Store(rawlines.rows, events.rows, events.nextId, actions.rows)
    }

    constructor (logfiles: LogfileTable, rawlines: RawlineTable, events: LogeventTable, actions: ActionTable,
                 devices: DeviceTable, resolve: string -> Option<InetAddress>, stamp: string -> Instant)
      requires logfiles.Valid() && events.Valid()
      ensures Valid() && ParserCurrent()
      ensures this.logfiles == logfiles && this.rawlines == rawlines && this.events == events
      ensures this.actions == actions && this.devices == devices
      ensures this.resolve == resolve && this.stamp == stamp
      ensures parse == Parser(Dir())
    {
      this.logfiles := logfiles;
      this.rawlines := rawlines;
      this.events := events;
      this.actions := actions;
      this.devices := devices;
      this.resolve := resolve;
      this.stamp := stamp;
      this.parse := Parser(Directory(devices.rows, resolve));
      new;
      ParserIsParser(Dir());
    }

    /** `saveLogfile` (lines 62-64): a file without an id is inserted under the
        next id; a stored one is overwritten. */
    method SaveLogfile(logfile: Logfile) returns (saved: Logfile)
      requires Valid()
      requires logfile.id.None? || logfile.id.value in logfiles.rows
      modifies logfiles
      ensures Valid()
      ensures saved.id.Some? && saved == logfile.(id := saved.id)
      ensures logfiles.rows == old(logfiles.rows)[saved.id.value := saved]
      ensures logfile.id.Some? ==> saved == logfile && logfiles.nextId == old(logfiles.nextId)
      ensures logfile.id.None? ==> saved.id.value !in old(logfiles.rows) && logfiles.nextId == old(logfiles.nextId) + 1
    {
      var id: int;
      if logfile.id.Some? {
        id := logfile.id.value;
      } else {
        id := logfiles.nextId;
        logfiles.nextId := logfiles.nextId + 1;
      }
      saved := logfile.(id := Some(id));
      logfiles.rows := logfiles.rows[id := saved];
    }

    /** `actionService.getActionByName(name).orElseGet(...)`: the stored action,
        or a new one saved on the spot. */
    method GetOrCreateAction(name: string) returns (action: Action)
      modifies actions
      ensures actions.rows == EnsureAction(old(actions.rows), name)
      ensures action == actions.rows[name]
      ensures name in old(actions.rows) ==> action == old(actions.rows)[name]
    {
      if name in actions.rows {
        action := actions.rows[name];
      } else {
        action := Action(name, None);
        actions.rows := actions.rows[name := action];
      }
    }

    /** The device of an address text, when it resolves and a device has it. */
    method FindDevice(text: string) returns (d: Option<Device>)
      ensures d == DeviceOf(Dir(), text)
    {
      var addr := resolve(text);
      if addr.Some? {
        d := DeviceByIp(devices.rows, addr.value);
      } else {
        d := None;
      }
    }

    /** `parseLogLine` (lines 140-407): the branches update the record in
        turn; `ok` is false where the code throws. The outcome is the one
        `ParseLine` describes. */
    method ParseLogLine(rawline: Rawline, line: string) returns (ok: bool, r: Rawline)
      modifies actions
      ensures ParseLine(line, ParseState(rawline, old(actions.rows)), Dir()) ==
              if ok then Done(ParseState(r, actions.rows)) else Threw(actions.rows)
      ensures r.rawline == rawline.rawline
    {
      ghost var m := MatchesOf(line);
      ghost var c0 := actions.rows;
      ok, r := TimestampBranch(rawline, MatchTimestampHost(line));
      if !ok {
        return;
      }
      ghost var st1 := ParseState(r, actions.rows);
      r := LoginBranch(r, FindLogin(line), FindReason(line));
      ghost var st2 := ParseState(r, actions.rows);
      ok, r := ConnectionBranch(r, FindConnection(line));
      if !ok {
        assert ConnectionStep(st2, m.connection, Dir()) == Threw(actions.rows);
        return;
      }
      ghost var st3 := ParseState(r, actions.rows);
      r := HttpBranch(r, FindHttp(line));
      ghost var st4 := ParseState(r, actions.rows);
      ok, r := AddressBranch(r, FindSourceIp(line), true);
      if !ok {
        return;
      }
      ok, r := AddressBranch(r, FindDestinationIp(line), false);
    }

    /** The timestamp-and-hostname branch (lines 142-159). */
    method TimestampBranch(rawline: Rawline, th: Option<TimestampHost>) returns (ok: bool, r: Rawline)
      ensures TimestampStep(ParseState(rawline, actions.rows), th, Dir()) ==
              if ok then Done(ParseState(r, actions.rows)) else Threw(actions.rows)
      ensures r.rawline == rawline.rawline
    {
      r := rawline;
      if th.Some? {
        var lookup := DeviceByHostname(devices.rows, th.value.hostname);
        if lookup.SeveralDevices? {
          return false, r;
        }
        if lookup.OneDevice? {
          r := r.(sourcedeviceid := Some(lookup.device.id));
        }
        r := r.(parseddata := Some(map["timestamp" := th.value.timestamp, "hostname" := th.value.hostname]));
      }
      ok := true;
    }

    /** The failed-login branch (lines 162-193); `reason` is what the
        `Reason:` pattern finds, consulted only when `login` matched. */
    method LoginBranch(rawline: Rawline, login: Option<string>, reason: Option<string>) returns (r: Rawline)
      modifies actions
      ensures LoginStep(ParseState(rawline, old(actions.rows)), login, reason) == ParseState(r, actions.rows)
      ensures r.rawline == rawline.rawline
    {
      r := rawline;
      if login.Some? {
        var _ := GetOrCreateAction(LoginFailed);
        r := r.(action := Some(LoginFailed), message := Some("Failed login attempt for user " + login.value));
        if reason.Some? {
          var user, why := login.value, Trim(reason.value);
          var data := if r.parseddata.Some? then r.parseddata.value else map[];
          assert data["username" := user]["failureReason" := why] == data + map["username" := user, "failureReason" := why];
          data := data["username" := user];
          data := data["failureReason" := why];
          r := r.(parseddata := Some(data));
        }
      }
    }

    /** The device lookups of the connection branch (lines 200-222): the
        destination is looked up only when the source address resolves. */
    method ConnectionDevices(rawline: Rawline, c: Connection) returns (r: Rawline)
      ensures r == WithDevice(WithDevice(rawline, true, DeviceOf(Dir(), c.src)), false,
                              if resolve(c.src).Some? then DeviceOf(Dir(), c.dst) else None)
    {
      r := rawline;
      var srcDevice := FindDevice(c.src);
      if srcDevice.Some? {
        r := r.(sourcedeviceid := Some(srcDevice.value.id));
      }
      if resolve(c.src).Some? {
        var dstDevice := FindDevice(c.dst);
        if dstDevice.Some? {
          r := r.(destinationdeviceid := Some(dstDevice.value.id));
        }
      }
    }

    /** The connection branch (lines 196-266). */
    method ConnectionBranch(rawline: Rawline, conn: Option<Connection>) returns (ok: bool, r: Rawline)
      modifies actions
      ensures ConnectionStep(ParseState(rawline, old(actions.rows)), conn, Dir()) ==
              if ok then Done(ParseState(r, actions.rows)) else Threw(actions.rows)
      ensures r.rawline == rawline.rawline
    {
      r := rawline;
      if conn.Some? {
        var c := conn.value;
        r := ConnectionDevices(r, c);
        var srcPort := ParsePort(c.srcPort);
        if srcPort.PortOverflow? {
          return false, r;
        }
        if srcPort.Port? {
          r := r.(sourceport := Some(srcPort.value));
        }
        var dstPort := ParsePort(c.dstPort);
        if dstPort.PortOverflow? {
          return false, r;
        }
        if dstPort.Port? {
          r := r.(destinationport := Some(dstPort.value));
        }
        var _ := GetOrCreateAction(ConnectionAction);
        r := r.(action := Some(ConnectionAction), message := Some(ConnectionMessage(c)));
      }
      ok := true;
    }

    /** The HTTP-request branch (lines 269-298). */
    method HttpBranch(rawline: Rawline, http: Option<HttpRequest>) returns (r: Rawline)
      modifies actions
      ensures HttpStep(ParseState(rawline, old(actions.rows)), http) == ParseState(r, actions.rows)
      ensures r.rawline == rawline.rawline
    {
      r := rawline;
      if http.Some? {
        var h := http.value;
        var _ := GetOrCreateAction(h.verb);
        r := r.(action := Some(h.verb));
        var data := if r.parseddata.Some? then r.parseddata.value else map[];
        assert data["url" := h.url]["statusCode" := h.statusCode] == data + map["url" := h.url, "statusCode" := h.statusCode];
        data := data["url" := h.url];
        data := data["statusCode" := h.statusCode];
        r := r.(parseddata := Some(data), message := Some(HttpMessage(h)));
      }
    }

    /** The `Source IP:` and `Destination IP:` branches (lines 300-406). */
    method AddressBranch(rawline: Rawline, addr: Option<Address>, source: bool) returns (ok: bool, r: Rawline)
      ensures AddressStep(ParseState(rawline, actions.rows), addr, Dir(), source) ==
              if ok then Done(ParseState(r, actions.rows)) else Threw(actions.rows)
      ensures r.rawline == rawline.rawline
    {
      r := rawline;
      if addr.Some? {
        var a := addr.value;
        var device := FindDevice(a.ip);
        if device.Some? {
          r := if source then r.(sourcedeviceid := Some(device.value.id)) else r.(destinationdeviceid := Some(device.value.id));
        }
        ghost var withDevice := r;
        assert withDevice == WithDevice(rawline, source, DeviceOf(Dir(), a.ip));
        var port := ParsePort(a.port);
        if port.PortOverflow? {
          return false, r;
        }
        if port.Port? {
          r := if source then r.(sourceport := Some(port.value)) else r.(destinationport := Some(port.value));
        }
        var key := if source then "sourceIp" else "destinationIp";
        var data := if r.parseddata.Some? then r.parseddata.value else map[];
        assert data[key := a.ip] == data + map[key := a.ip];
        data := data[key := a.ip];
        r := r.(parseddata := Some(data));
      }
      ok := true;
    }

    /** `parseAndCreateRawline` (lines 125-135): a record whose key and message
        are the line, parsed, then saved under its key. */
    method ParseAndCreateRawline(line: string) returns (ok: bool, rawline: Rawline)
      requires ParserCurrent()
      modifies actions, rawlines
      ensures parse(line, old(actions.rows)) == if ok then Done(ParseState(rawline, actions.rows)) else Threw(actions.rows)
      ensures ok ==> rawline.rawline == line && rawlines.rows == old(rawlines.rows)[line := rawline]
      ensures !ok ==> rawlines.rows == old(rawlines.rows)
    {
      var initial := InitialRawline(line);
      ok, rawline := ParseLogLine(initial, line);
      if ok {
        rawlines.rows := rawlines.rows[rawline.rawline := rawline];
      }
    }

    /** The event saved for a parsed line (lines 100-106): the next id, the
        file, the line and its timestamp, with no alert yet. */
    method RecordEvent(line: string, fileId: int)
      requires events.Valid()
      modifies events
      ensures events.Valid()
      ensures events.rows == old(events.rows)[old(events.nextId) := EventFor(old(events.nextId), fileId, line, stamp)]
      ensures events.nextId == old(events.nextId) + 1
    {
      var id := events.nextId;
      events.rows := events.rows[id := EventFor(id, fileId, line, stamp)];
      events.nextId := id + 1;
    }

    /** `line.trim().isEmpty()` (line 93). */
    static method IsBlankLine(line: string) returns (blank: bool)
      ensures blank <==> IsBlank(line)
    {
      blank := Trim(line) == [];
    }

    /** One pass of the loop in `processLogfileContent` (lines 92-109): a
        blank line is skipped; any other line is parsed and saved, and an
        event is saved for it with the file and the line's timestamp. */
    method IngestLine(line: string, fileId: int) returns (ok: bool)
      requires events.Valid() && ParserCurrent()
      modifies rawlines, events, actions
      ensures events.Valid()
      ensures (StoreOf(), ok) == Ingestion.IngestLine(old(StoreOf()), line, fileId, stamp, parse)
    {
      ghost var s0 := StoreOf();
      ok := true;
      var blank := IsBlankLine(line);
      if !blank {
        var rawline;
        ok, rawline := ParseAndCreateRawline(line);
        if ok {
          RecordEvent(line, fileId);
          IngestLineDone(s0, line, fileId, stamp, parse, rawline, actions.rows);
        } else {
          IngestLineThrew(s0, line, fileId, stamp, parse, actions.rows);
        }
      }
    }

    /** The loop of `processLogfileContent` (lines 92-110): the lines in
        order, up to and including the first that throws. */
    method IngestLines(lines: seq<string>, fileId: int) returns (ok: bool)
      requires events.Valid() && ParserCurrent()
      modifies rawlines, events, actions
      ensures events.Valid()
      ensures (StoreOf(), ok) == Ingest(lines, old(StoreOf()), fileId, stamp, parse)
    {
      ghost var s0 := StoreOf();
      ok := true;
      var i := 0;
      while i < |lines| && ok
        invariant 0 <= i <= |lines|
        invariant events.Valid()
        invariant (StoreOf(), ok) == Ingest(lines[..i], s0, fileId, stamp, parse)
      {
        assert lines[..i + 1][..i] == lines[..i];
        ok := IngestLine(lines[i], fileId);
        i := i + 1;
      }
      if !ok {
        IngestStops(lines, i, s0, fileId, stamp, parse);
      } else {
        assert lines[..i] == lines;
      }
    }

    /** `processLogfileContent` (lines 81-120): a file with no content fails
        with nothing recorded; otherwise the lines are ingested as `Ingest`
        says and the file ends Uploaded, or Failed at the first line that
        throws. The file is saved with its new status either way. */
    method ProcessLogfileContent(logfile: Logfile) returns (saved: Logfile)
      requires Valid() && ParserCurrent()
      requires logfile.id.Some? && logfile.id.value in logfiles.rows
      modifies logfiles, rawlines, events, actions
      ensures Valid()
      ensures logfiles.rows == old(logfiles.rows)[logfile.id.value := saved]
      ensures logfile.rawcontent.None? || logfile.rawcontent.value == [] ==>
                saved == logfile.(status := Some(Failed)) && StoreOf() == old(StoreOf())
      ensures logfile.rawcontent.Some? && logfile.rawcontent.value != [] ==>
                var (s, ok) := Ingest(SplitLines(logfile.rawcontent.value), old(StoreOf()),
                                      logfile.id.value, stamp, parse);
                StoreOf() == s && saved == logfile.(status := Some(FinalStatus(ok)))
    {
      if logfile.rawcontent.None? || logfile.rawcontent.value == [] {
        saved := SaveLogfile(logfile.(status := Some(Failed)));
        return;
      }
      var lines := SplitLines(logfile.rawcontent.value);
      var ok := IngestLines(lines, logfile.id.value);
      saved := SaveLogfile(logfile.(status := Some(FinalStatus(ok))));
    }
  }
}
