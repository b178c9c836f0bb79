/** The database tables, one object per table. Each JPA repository call the
    services make becomes a read or an update of one of these objects; a table
    whose keys the database generates keeps the next key to hand out. */
module Tables {
  import opened Wrappers
  import opened Entities

  /** Actions, keyed by their name. */
  class ActionTable {
    var rows: map<string, Action>

    ghost predicate Valid() reads this { CatalogKeyed(rows) }

    constructor () ensures Valid() && rows == map[] { rows := map[]; }
  }

  /** Event categories, keyed by their name. */
  class CategoryTable {
    var rows: map<string, Eventcategory>

    ghost predicate Valid() reads this
    {
      forall n :: n in rows ==> rows[n].categoryname == n
    }

    constructor () ensures Valid() && rows == map[] { rows := map[]; }
  }

  class RawlineTable {
    var rows: map<string, Rawline>
    constructor () ensures rows == map[] { rows := map[]; }
  }

  class LogeventTable {
    var rows: map<int, Logevent>
    var nextId: int

    /** Every stored event is filed under its own id, below the next id. */
    ghost predicate Valid() reads this
    {
      forall id :: id in rows ==> rows[id].id == id && id < nextId
    }

    constructor () ensures Valid() && rows == map[] && nextId == 1 { rows := map[]; nextId := 1; }
  }

  class LogfileTable {
    var rows: map<int, Logfile>
    var nextId: int

    ghost predicate Valid() reads this
    {
      forall id :: id in rows ==> rows[id].id == Some(id) && id < nextId
    }

    constructor () ensures Valid() && rows == map[] && nextId == 1 { rows := map[]; nextId := 1; }
  }

  /** Devices in the order the database returns them. */
  class DeviceTable {
    var rows: seq<Device>
    constructor (devices: seq<Device>) ensures rows == devices { rows := devices; }
  }

  /** Users, keyed by their generated id. */
  class UserTable {
    var rows: map<int, User>
    var nextId: int

    /** Every user is filed under its own id, below the next id, and no two
        users share a username or an email. */
    ghost predicate Valid() reads this
    {
      (forall id :: id in rows ==> rows[id].id == id && id < nextId) &&
      (forall a, b :: a in rows && b in rows && rows[a].username == rows[b].username ==> a == b) &&
      (forall a, b :: a in rows && b in rows && rows[a].email == rows[b].email ==> a == b)
    }

    constructor () ensures Valid() && rows == map[] && nextId == 1 { rows := map[]; nextId := 1; }
  }

  /** Alerts, keyed by their id. */
  class AlertTable {
    var rows: map<int, Alert>

    ghost predicate Valid() reads this
    {
      forall id :: id in rows ==> rows[id].id == id
    }

    constructor () ensures Valid() && rows == map[] { rows := map[]; }
  }

  /** The alert rules; only their ids matter to the operations modelled. */
  class AlertruleTable {
    var rows: set<int>
    constructor () ensures rows == {} { rows := {}; }
  }

  /** Incident reports, keyed by their id. */
  class ReportTable {
    var rows: map<int, Incidentreport>

    ghost predicate Valid() reads this
    {
      forall id :: id in rows ==> rows[id].id == id
    }

    constructor () ensures Valid() && rows == map[] { rows := map[]; }
  }

  /** Incident-event links, identified by their composite key. */
  class LinkTable {
    var rows: set<LinkKey>
    constructor () ensures rows == {} { rows := {}; }
  }
}
