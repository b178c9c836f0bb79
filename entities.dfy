/** The persisted entities of the backend. A many-to-one reference is kept as
    the key of the row it points to; an `Instant` is an integer count of time
    units; a nullable column is an `Option`. */
module Entities {
  import opened Wrappers

  type Instant = int

  /** The resolved form of a textual address (`java.net.InetAddress`). */
  datatype InetAddress = InetAddress(address: seq<int>)

  datatype Device = Device(
    id: int,
    ipaddress: Option<InetAddress>,
    hostname: Option<string>,
    operatingsystem: Option<string>,
    location: Option<string>,
    devicetype: Option<string>)

  datatype Eventcategory = Eventcategory(categoryname: string, description: Option<string>)

  /** An action of the catalog; its name is its key. */
  datatype Action = Action(action: string, categoryname: Option<string>)

  /** Every action of a catalog is filed under its own name. */
  predicate CatalogKeyed(catalog: map<string, Action>)
  {
    forall n :: n in catalog ==> catalog[n].action == n
  }

  /** Structured data parsed out of a raw line (a JSON object of strings). */
  type ParsedData = map<string, string>

  /** One stored log line; the line text itself is the key. */
  datatype Rawline = Rawline(
    rawline: string,
    sourcedeviceid: Option<int>,
    sourceport: Option<int>,
    destinationdeviceid: Option<int>,
    destinationport: Option<int>,
    action: Option<string>,
    message: Option<string>,
    parseddata: Option<ParsedData>)

  /** `LogFileStatus`: UPLOADED("Uploaded"), PENDING("Pending"), FAILED("Failed"). */
  datatype LogFileStatus = Uploaded | Pending | Failed

  datatype Logfile = Logfile(
    id: Option<int>,
    uploadedby: Option<int>,
    sourcename: Option<string>,
    sourcetype: Option<string>,
    filename: Option<string>,
    uploadtime: Option<Instant>,
    status: Option<LogFileStatus>,
    rawcontent: Option<string>)

  datatype Logevent = Logevent(
    id: int,
    fileid: int,
    timestamp: Option<Instant>,
    rawline: string,
    associatedalertid: Option<int>)

  /** `Role`: ADMIN("Admin"), ANALYST("Analyst"). */
  datatype Role = Admin | Analyst

  datatype User = User(
    id: int,
    name: Option<string>,
    email: string,
    username: string,
    passwordHash: string,
    role: Option<Role>,
    createdat: Option<Instant>,
    lastlogin: Option<Instant>)

  /** `AlertStatus`: OPEN("Open"), INVESTIGATING("Investigating"), RESOLVED("Resolved"). */
  datatype AlertStatus = Open | Investigating | Resolved

  datatype Alert = Alert(id: int, triggeredat: Option<Instant>, ruleid: int, status: AlertStatus)

  datatype Incidentreport = Incidentreport(
    id: int,
    title: Option<string>,
    description: Option<string>,
    createdat: Option<Instant>,
    createdby: Option<int>,
    relatedalertid: Option<int>)

  /** The composite key of an incident-event link. */
  datatype LinkKey = LinkKey(reportid: int, logeventid: int)

  /** Java's `Enum.valueOf` for the three enums used by request parameters: the
      constant's declared NAME must match exactly. */
  function RoleValueOf(name: string): (r: Option<Role>)
    ensures r == Some(Admin) <==> name == "ADMIN"
    ensures r == Some(Analyst) <==> name == "ANALYST"
  {
    if name == "ADMIN" then Some(Admin)
    else if name == "ANALYST" then Some(Analyst)
    else None
  }

  function AlertStatusValueOf(name: string): (r: Option<AlertStatus>)
    ensures r == Some(Open) <==> name == "OPEN"
    ensures r == Some(Investigating) <==> name == "INVESTIGATING"
    ensures r == Some(Resolved) <==> name == "RESOLVED"
  {
    if name == "OPEN" then Some(Open)
    else if name == "INVESTIGATING" then Some(Investigating)
    else if name == "RESOLVED" then Some(Resolved)
    else None
  }

  /** The display value each enum's `toString` returns. */
  function RoleDisplay(r: Role): string
  {
    match r
    case Admin => "Admin"
    case Analyst => "Analyst"
  }

  function AlertStatusDisplay(s: AlertStatus): string
  {
    match s
    case Open => "Open"
    case Investigating => "Investigating"
    case Resolved => "Resolved"
  }

  /** `valueOf` does not accept what `toString` prints: the display value of
      every constant is refused. */
  lemma DisplayValuesAreNotNames(r: Role, s: AlertStatus)
    ensures RoleValueOf(RoleDisplay(r)).None?
    ensures AlertStatusValueOf(AlertStatusDisplay(s)).None?
  {
  }
}
