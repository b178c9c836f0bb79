/** `EventcategoryService` and the table logic of `EventController`: create
    with a conflict check, updates that merge the request into the stored
    row, deletes behind an existence check, raw-line lookups by a JSON
    payload, and the creation of a log file. */
module EventControllers {
  import opened Wrappers
  import opened Entities
  import opened Tables
  import opened Responses
  import opened LogfileServices

  /** `EventcategoryService` over the category table. */
  class EventcategoryService {
    const categories: CategoryTable

    constructor (categories: CategoryTable)
      ensures this.categories == categories
    {
      this.categories := categories;
    }

    /** `categoryExists` (lines 61-63). */
    method CategoryExists(name: string) returns (exists_: bool)
      ensures exists_ <==> name in categories.rows
    {
      exists_ := name in categories.rows;
    }

    /** `createCategory` (lines 38-40): a save under the category's name,
        which replaces a stored category of that name. */
    method CreateCategory(category: Eventcategory) returns (saved: Eventcategory)
      requires categories.Valid()
      modifies categories
      ensures categories.Valid()
      ensures saved == category
      ensures categories.rows == old(categories.rows)[category.categoryname := category]
    {
      saved := category;
      categories.rows := categories.rows[category.categoryname := category];
    }

    /** `updateCategory` (lines 43-49): an unknown name gives nothing and
        changes nothing; a known one gets the request's description, which
        may be null, and keeps its name. */
    method UpdateCategory(name: string, details: Eventcategory) returns (updated: Option<Eventcategory>)
      requires categories.Valid()
      modifies categories
      ensures categories.Valid()
      ensures name !in old(categories.rows) ==> updated.None? && categories.rows == old(categories.rows)
      ensures name in old(categories.rows) ==>
                updated == Some(Eventcategory(name, details.description)) &&
                categories.rows == old(categories.rows)[name := updated.value]
    {
      if name in categories.rows {
        var existing := categories.rows[name];
        existing := existing.(description := details.description);
        categories.rows := categories.rows[existing.categoryname := existing];
        updated := Some(existing);
      } else {
        updated := None;
      }
    }

    /** `deleteCategory` (lines 52-58): true, with the category gone, exactly
        when it was stored. */
    method DeleteCategory(name: string) returns (deleted: bool)
      requires categories.Valid()
      modifies categories
      ensures categories.Valid()
      ensures deleted <==> name in old(categories.rows)
      ensures categories.rows == old(categories.rows) - {name}
      ensures !deleted ==> categories.rows == old(categories.rows)
    {
      if name in categories.rows {
        categories.rows := categories.rows - {name};
        deleted := true;
      } else {
        deleted := false;
      }
    }
  }

  /** The fields of a `Logevent` request body that `updateEvent` reads; each
      may be null. */
  datatype EventDetails = EventDetails(
    fileid: Option<int>,
    rawline: Option<string>,
    associatedalertid: Option<int>,
    timestamp: Option<Instant>)

  /** The merge of `updateEvent` (lines 236-247): every non-null field of the
      request replaces the stored one; the id is never touched. */
  function MergeEvent(e: Logevent, d: EventDetails): (r: Logevent)
    ensures r.id == e.id
    ensures r.fileid == (if d.fileid.Some? then d.fileid.value else e.fileid)
    ensures r.rawline == (if d.rawline.Some? then d.rawline.value else e.rawline)
    ensures r.associatedalertid == (if d.associatedalertid.Some? then d.associatedalertid else e.associatedalertid)
    ensures r.timestamp == (if d.timestamp.Some? then d.timestamp else e.timestamp)
  {
    var e1 := if d.fileid.Some? then e.(fileid := d.fileid.value) else e;
    var e2 := if d.rawline.Some? then e1.(rawline := d.rawline.value) else e1;
    var e3 := if d.associatedalertid.Some? then e2.(associatedalertid := d.associatedalertid) else e2;
    if d.timestamp.Some? then e3.(timestamp := d.timestamp) else e3
  }

  /** The request body that carries every field of an event. */
  function DetailsOf(e: Logevent): EventDetails
  {
    EventDetails(Some(e.fileid), Some(e.rawline), e.associatedalertid, e.timestamp)
  }

  /** Merging the same request twice is merging it once. */
  lemma MergeIdempotent(e: Logevent, d: EventDetails)
    ensures MergeEvent(MergeEvent(e, d), d) == MergeEvent(e, d)
  {
  }

  /** A request of nulls leaves the event as it is. */
  lemma MergeNothing(e: Logevent)
    ensures MergeEvent(e, EventDetails(None, None, None, None)) == e
  {
  }

  /** A request carrying another event's fields copies all of them except a
      null alert or timestamp, and keeps the id. */
  lemma MergeFull(e: Logevent, f: Logevent)
    requires f.associatedalertid.Some? && f.timestamp.Some?
    ensures MergeEvent(e, DetailsOf(f)) == f.(id := e.id)
  {
  }

  /** `EventController`. It reaches the action, raw-line and event tables
      through the same objects the log-file service writes to, as the
      services it calls share the database. */
  class EventController {
    const categoryService: EventcategoryService
    const logfileService: LogfileService
    const actions: ActionTable
    const rawlines: RawlineTable
    const events: LogeventTable
    /** `Instant.now()` at the time of a request. */
    const now: Instant

    ghost predicate Valid()
      reads this, categoryService, categoryService.categories, logfileService,
            logfileService.logfiles, logfileService.events, actions
    {
      actions == logfileService.actions && rawlines == logfileService.rawlines &&
      events == logfileService.events &&
      categoryService.categories.Valid() && actions.Valid() && logfileService.Valid()
    }

    constructor (categoryService: EventcategoryService, logfileService: LogfileService, now: Instant)
      requires categoryService.categories.Valid() && logfileService.actions.Valid() && logfileService.Valid()
      ensures Valid()
      ensures this.categoryService == categoryService && this.logfileService == logfileService && this.now == now
    {
      this.categoryService := categoryService;
      this.logfileService := logfileService;
      this.actions := logfileService.actions;
      this.rawlines := logfileService.rawlines;
      this.events := logfileService.events;
      this.now := now;
    }

    /** `createCategory` (lines 67-73): Conflict, with nothing saved, when
        the name is taken; otherwise Created with the saved category. */
    method CreateCategory(category: Eventcategory) returns (resp: Response<Eventcategory>)
      requires Valid()
      modifies categoryService.categories
      ensures Valid()
      ensures category.categoryname in old(categoryService.categories.rows) ==>
                resp == Conflict && categoryService.categories.rows == old(categoryService.categories.rows)
      ensures category.categoryname !in old(categoryService.categories.rows) ==>
                resp == Created(category) &&
                categoryService.categories.rows == old(categoryService.categories.rows)[category.categoryname := category]
    {
      var taken := categoryService.CategoryExists(category.categoryname);
      if taken {
        return Conflict;
      }
      var saved := categoryService.CreateCategory(category);
      resp := Created(saved);
    }

    /** `createAction` (lines 131-137): Conflict, with nothing saved, when
        the name is taken; otherwise Created with the saved action. */
    method CreateAction(action: Action) returns (resp: Response<Action>)
      requires Valid()
      modifies actions
      ensures Valid()
      ensures action.action in old(actions.rows) ==> resp == Conflict && actions.rows == old(actions.rows)
      ensures action.action !in old(actions.rows) ==>
                resp == Created(action) && actions.rows == old(actions.rows)[action.action := action]
    {
      if action.action in actions.rows {
        return Conflict;
      }
      actions.rows := actions.rows[action.action := action];
      resp := Created(action);
    }

    /** `updateAction` (lines 141-154): NotFound for an unknown name;
        otherwise only the category changes, and only to a non-null one. */
    method UpdateAction(name: string, details: Action) returns (resp: Response<Action>)
      requires Valid()
      modifies actions
      ensures Valid()
      ensures name !in old(actions.rows) ==> resp == NotFound && actions.rows == old(actions.rows)
      ensures name in old(actions.rows) ==>
                var updated := Action(name, if details.categoryname.Some? then details.categoryname
                                            else old(actions.rows)[name].categoryname);
                resp == Ok(updated) && actions.rows == old(actions.rows)[name := updated]
    {
      if name !in actions.rows {
        return NotFound;
      }
      var existing := actions.rows[name];
      if details.categoryname.Some? {
        existing := existing.(categoryname := details.categoryname);
      }
      actions.rows := actions.rows[existing.action := existing];
      resp := Ok(existing);
    }

    /** `deleteAction` (lines 158-164): NoContent with the action gone when
        it exists; otherwise NotFound and nothing changes. */
    method DeleteAction(name: string) returns (resp: Response<()>)
      requires Valid()
      modifies actions
      ensures Valid()
      ensures name in old(actions.rows) ==> resp == NoContent && actions.rows == old(actions.rows) - {name}
      ensures name !in old(actions.rows) ==> resp == NotFound && actions.rows == old(actions.rows)
    {
      if name in actions.rows {
        actions.rows := actions.rows - {name};
        return NoContent;
      }
      resp := NotFound;
    }

    /** `updateEvent` (lines 229-251): NotFound for an unknown id; otherwise
        the stored event merged with the request, saved under its own id. */
    method UpdateEvent(id: int, details: EventDetails) returns (resp: Response<Logevent>)
      requires Valid()
      modifies events
      ensures Valid()
      ensures events.nextId == old(events.nextId)
      ensures id !in old(events.rows) ==> resp == NotFound && events.rows == old(events.rows)
      ensures id in old(events.rows) ==>
                var merged := MergeEvent(old(events.rows)[id], details);
                merged.id == id && resp == Ok(merged) && events.rows == old(events.rows)[id := merged]
    {
      if id !in events.rows {
        return NotFound;
      }
      var merged := MergeEvent(events.rows[id], details);
      events.rows := events.rows[merged.id := merged];
      resp := Ok(merged);
    }

    /** `getRawlineByContentPost` (lines 272-282): BadRequest with no body
        when the payload has no "rawline", NotFound for an unknown line,
        otherwise Ok with the stored record. */
    method RawlineDetails(payload: map<string, Option<string>>) returns (resp: Response<Rawline>)
      ensures Lookup(payload, "rawline").None? ==> resp == BadRequest(None)
      ensures Lookup(payload, "rawline").Some? ==>
                var line := Lookup(payload, "rawline").value;
                resp == (if line in rawlines.rows then Ok(rawlines.rows[line]) else NotFound)
    {
      var line := Lookup(payload, "rawline");
      if line.None? {
        return BadRequest(None);
      }
      if line.value in rawlines.rows {
        resp := Ok(rawlines.rows[line.value]);
      } else {
        resp := NotFound;
      }
    }

    /** `deleteRawlinePost` (lines 318-330): BadRequest when the payload has
        no "rawline", NotFound with no change for an unknown line, otherwise
        NoContent with the line gone. */
    method DeleteRawline(payload: map<string, Option<string>>) returns (resp: Response<()>)
      modifies rawlines
      ensures Lookup(payload, "rawline").None? ==> resp == BadRequest(None) && rawlines.rows == old(rawlines.rows)
      ensures Lookup(payload, "rawline").Some? ==>
                var line := Lookup(payload, "rawline").value;
                (line !in old(rawlines.rows) ==> resp == NotFound && rawlines.rows == old(rawlines.rows)) &&
                (line in old(rawlines.rows) ==> resp == NoContent && rawlines.rows == old(rawlines.rows) - {line})
    {
      var line := Lookup(payload, "rawline");
      if line.None? {
        return BadRequest(None);
      }
      if line.value in rawlines.rows {
        rawlines.rows := rawlines.rows - {line.value};
        return NoContent;
      }
      resp := NotFound;
    }

    /** `createLogfile` (lines 350-370): the status is forced to Uploaded and
        a missing upload time becomes now; the file is saved, which gives it
        an id, and saved again under that id. */
    method CreateLogfile(logfile: Logfile) returns (resp: Response<Logfile>)
      requires Valid()
      requires logfile.id.None? || logfile.id.value in logfileService.logfiles.rows
      modifies logfileService.logfiles
      ensures Valid()
      ensures resp.Created? && resp.body.id.Some?
      ensures resp.body == logfile.(id := resp.body.id, status := Some(Uploaded),
                                    uploadtime := if logfile.uploadtime.Some? then logfile.uploadtime else Some(now))
      ensures logfileService.logfiles.rows == old(logfileService.logfiles.rows)[resp.body.id.value := resp.body]
      ensures logfile.id.Some? ==> resp.body.id == logfile.id
      ensures logfile.id.None? ==> resp.body.id.value !in old(logfileService.logfiles.rows)
    {
      var file := logfile.(status := Some(Uploaded));
      if file.uploadtime.None? {
        file := file.(uploadtime := Some(now));
      }
      var saved := logfileService.SaveLogfile(file);
      var again := logfileService.SaveLogfile(saved);
      resp := Created(again);
    }
  }
}
