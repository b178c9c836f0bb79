/** The report and link endpoints of `IncidentController`: lookups, link
    tests and counts that answer NotFound for an unknown report, and the
    deletion of a report's or an event's links. Links are identified by
    their composite key; lists are modelled as sets, their order left out. */
module Incidents {
  import opened Wrappers
  import opened Entities
  import opened Tables
  import opened Responses

  /** The links of a report. */
  function LinksOfReport(links: set<LinkKey>, reportId: int): (r: set<LinkKey>)
    ensures r <= links
  {
    set l | l in links && l.reportid == reportId
  }

  /** The links of an event. */
  function LinksOfEvent(links: set<LinkKey>, eventId: int): (r: set<LinkKey>)
    ensures r <= links
  {
    set l | l in links && l.logeventid == eventId
  }

  /** A part of a set is no larger than the set. */
  lemma SubsetNoLarger(part: set<LinkKey>, whole: set<LinkKey>)
    requires part <= whole
    ensures |part| <= |whole|
  {
    assert whole == part + (whole - part);
  }

  /** A derived `deleteBy...` query as the code runs it: no transaction is
      open around the repository call, so it throws (None) as soon as it
      has a row to remove, and it removes nothing. */
  function DerivedDeleteAsWritten(links: set<LinkKey>, doomed: set<LinkKey>): (r: Option<set<LinkKey>>)
    ensures r.None? <==> doomed != {}
    ensures r.Some? ==> r.value == links
  {
    if doomed == {} then Some(links) else None
  }

  /** As the code stands, deleting a report's links fails exactly when the
      report has links, and never removes one. */
  lemma DeleteLinksAsWrittenFails(links: set<LinkKey>, reportId: int, eventId: int)
    ensures LinkKey(reportId, eventId) in links ==> DerivedDeleteAsWritten(links, LinksOfReport(links, reportId)).None?
    ensures DerivedDeleteAsWritten(links, LinksOfReport(links, reportId)).Some? ==>
              LinksOfReport(DerivedDeleteAsWritten(links, LinksOfReport(links, reportId)).value, reportId) ==
              LinksOfReport(links, reportId)
  {
    if LinkKey(reportId, eventId) in links {
      assert LinkKey(reportId, eventId) in LinksOfReport(links, reportId);
    }
  }

  /** The deletion the endpoints mean: the report's links go, every other
      report's links stay, and the report's count drops to zero. */
  lemma DeleteLinksOfReport(links: set<LinkKey>, reportId: int, other: int)
    requires other != reportId
    ensures LinksOfReport(links - LinksOfReport(links, reportId), reportId) == {}
    ensures LinksOfReport(links - LinksOfReport(links, reportId), other) == LinksOfReport(links, other)
    ensures |links - LinksOfReport(links, reportId)| == |links| - |LinksOfReport(links, reportId)|
  {
  }

  /** The same for an event's links. */
  lemma DeleteLinksOfEvent(links: set<LinkKey>, eventId: int, other: int)
    requires other != eventId
    ensures LinksOfEvent(links - LinksOfEvent(links, eventId), eventId) == {}
    ensures LinksOfEvent(links - LinksOfEvent(links, eventId), other) == LinksOfEvent(links, other)
  {
  }

  class IncidentController {
    const reports: ReportTable
    const links: LinkTable

    constructor (reports: ReportTable, links: LinkTable)
      ensures this.reports == reports && this.links == links
    {
      this.reports := reports;
      this.links := links;
    }

    /** `getReportByTitle` (lines 28-32): NotFound when no report has the
        title, Ok with the one that has it, and a server error when several
        do, as `findByTitle` expects a single result. */
    method GetReportByTitle(title: string) returns (resp: Response<Incidentreport>)
      ensures resp.Ok? || resp == NotFound || resp == InternalError
      ensures resp == NotFound <==> !exists id :: id in reports.rows && reports.rows[id].title == Some(title)
      ensures resp == InternalError <==>
                exists a, b :: a in reports.rows && b in reports.rows && a != b &&
                               reports.rows[a].title == Some(title) && reports.rows[b].title == Some(title)
      ensures resp.Ok? ==> exists id :: id in reports.rows && reports.rows[id] == resp.body && resp.body.title == Some(title)
    {
      if !exists id :: id in reports.rows && reports.rows[id].title == Some(title) {
        return NotFound;
      }
      var i :| i in reports.rows && reports.rows[i].title == Some(title);
      if exists j :: j in reports.rows && j != i && reports.rows[j].title == Some(title) {
        return InternalError;
      }
      resp := Ok(reports.rows[i]);
    }

    /** `getLinksByReport` (lines 49-58): NotFound for an unknown report,
        otherwise Ok with exactly its links. */
    method GetLinksByReport(reportId: int) returns (resp: Response<set<LinkKey>>)
      ensures reportId !in reports.rows ==> resp == NotFound
      ensures reportId in reports.rows ==>
                resp.Ok? && forall l :: l in resp.body <==> l in links.rows && l.reportid == reportId
    {
      if reportId !in reports.rows {
        return NotFound;
      }
      resp := Ok(LinksOfReport(links.rows, reportId));
    }

    /** `getLinksByEvent` (lines 61-67): Ok with exactly the event's links,
        whether or not the event exists. */
    method GetLinksByEvent(eventId: int) returns (resp: Response<set<LinkKey>>)
      ensures resp.Ok? && forall l :: l in resp.body <==> l in links.rows && l.logeventid == eventId
    {
      resp := Ok(LinksOfEvent(links.rows, eventId));
    }

    /** `doesLinkExist` (lines 70-81): NotFound for an unknown report,
        otherwise Ok with whether that report-event pair is linked. */
    method DoesLinkExist(reportId: int, eventId: int) returns (resp: Response<bool>)
      ensures reportId !in reports.rows ==> resp == NotFound
      ensures reportId in reports.rows ==> resp.Ok? && (resp.body <==> LinkKey(reportId, eventId) in links.rows)
    {
      if reportId !in reports.rows {
        return NotFound;
      }
      resp := Ok(LinkKey(reportId, eventId) in links.rows);
    }

    /** `countEventsByReport` (lines 84-93): NotFound for an unknown report,
        otherwise the number of its links. */
    method CountEventsByReport(reportId: int) returns (resp: Response<int>)
      ensures reportId !in reports.rows ==> resp == NotFound
      ensures reportId in reports.rows ==> resp == Ok(|LinksOfReport(links.rows, reportId)|)
      ensures resp.Ok? ==> 0 <= resp.body <= |links.rows|
    {
      if reportId !in reports.rows {
        return NotFound;
      }
      SubsetNoLarger(LinksOfReport(links.rows, reportId), links.rows);
      resp := Ok(|LinksOfReport(links.rows, reportId)|);
    }

    /** `countReportsByEvent` (lines 96-102): the number of the event's
        links, zero for an unknown event. */
    method CountReportsByEvent(eventId: int) returns (resp: Response<int>)
      ensures resp == Ok(|LinksOfEvent(links.rows, eventId)|)
      ensures 0 <= resp.body <= |links.rows|
    {
      SubsetNoLarger(LinksOfEvent(links.rows, eventId), links.rows);
      resp := Ok(|LinksOfEvent(links.rows, eventId)|);
    }

    /** `deleteLinksByReport` (lines 105-114) with the removal done: NotFound
        and no change for an unknown report; otherwise its links are removed
        and the answer is NoContent. */
    method DeleteLinksByReport(reportId: int) returns (resp: Response<()>)
      modifies links
      ensures reportId !in reports.rows ==> resp == NotFound && links.rows == old(links.rows)
      ensures reportId in reports.rows ==>
                resp == NoContent && links.rows == old(links.rows) - LinksOfReport(old(links.rows), reportId)
    {
      if reportId !in reports.rows {
        return NotFound;
      }
      links.rows := links.rows - LinksOfReport(links.rows, reportId);
      resp := NoContent;
    }

    /** `deleteLinksByEvent` (lines 117-123) with the removal done: the
        event's links are removed, and the answer is NoContent even for an
        unknown event. */
    method DeleteLinksByEvent(eventId: int) returns (resp: Response<()>)
      modifies links
      ensures resp == NoContent && links.rows == old(links.rows) - LinksOfEvent(old(links.rows), eventId)
    {
      links.rows := links.rows - LinksOfEvent(links.rows, eventId);
      resp := NoContent;
    }
  }
}
