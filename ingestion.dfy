/** What `LogfileService.processLogfileContent` does to the tables, as a
    function of the lines: each non-blank line in turn is parsed, its raw line
    saved under its own text and an event saved for it; the first line whose
    parsing throws ends the run, and what was saved before it stays saved. */
module Ingestion {
  import opened Wrappers
  import opened Text
  import opened Entities
  import opened LogParsing
  import opened LogParsingFacts

  /** The tables the run writes to: raw lines by text, events by id with the
      next id to hand out, and the action catalog. */
  datatype Store = Store(
    rawlines: map<string, Rawline>,
    events: map<int, Logevent>,
    nextEventId: int,
    catalog: map<string, Action>)

  /** Every event is filed under its own id, below the next id. */
  predicate EventsValid(s: Store)
  {
    forall id :: id in s.events ==> s.events[id].id == id && id < s.nextEventId
  }

  /** Every raw line is filed under its own text. */
  predicate RawlinesKeyed(s: Store)
  {
    forall k :: k in s.rawlines ==> s.rawlines[k].rawline == k
  }

  /** The event recorded for a line of the file. `stamp` stands for the
      timestamp taken from the line or, failing that, the current time. */
  function EventFor(id: int, fileId: int, line: string, stamp: string -> Instant): Logevent
  {
    Logevent(id, fileId, Some(stamp(line)), line, None)
  }

  /** The store holds, under `id`, the event recorded for `line`. */
  predicate Records(r: Store, id: int, fileId: int, line: string, stamp: string -> Instant)
  {
    id in r.events && r.events[id] == EventFor(id, fileId, line, stamp)
  }

  /** `parseAndCreateRawline` without its save: the parse of a fresh raw line
      for the text against the catalog as it stands. */
  type LineParser = (string, map<string, Action>) -> ParseOutcome

  function Parser(dir: Directory): LineParser
  {
    (line, catalog) => ParseLine(line, ParseState(InitialRawline(line), catalog), dir)
  }

  /** The catalog only gains entries; the ones it had stay as they were. */
  predicate CatalogGrows(before: map<string, Action>, after: map<string, Action>)
  {
    before.Keys <= after.Keys && forall n :: n in before ==> after[n] == before[n]
  }

  /** What the loop relies on of the parser: whether a line throws does not
      depend on the catalog, a parsed raw line keeps the line as its text, and
      the catalog only grows. */
  ghost predicate ParserFacts(parse: LineParser)
  {
    (forall line, c :: parse(line, c).Threw? == parse(line, map[]).Threw?) &&
    (forall line, c :: parse(line, c).Done? ==> parse(line, c).state.rawline.rawline == line) &&
    (forall line, c :: CatalogGrows(c, FinalCatalog(parse(line, c))))
  }

  /** `parse` is the parser of the model against the directory `dir`. (The
      trigger keeps the parser's definition out of proofs that only use the
      facts above.) */
  ghost predicate IsParser(parse: LineParser, dir: Directory)
  {
    forall line, c {:trigger ParseLine(line, ParseState(InitialRawline(line), c), dir)} ::
      parse(line, c) == ParseLine(line, ParseState(InitialRawline(line), c), dir)
  }

  lemma ParserIsParser(dir: Directory)
    ensures IsParser(Parser(dir), dir)
  {
  }

  /** The parser of the model has the facts the loop relies on; a line throws
      under it exactly when `Throws` says so. */
  lemma ParserHasFacts(parse: LineParser, dir: Directory)
    requires IsParser(parse, dir)
    ensures ParserFacts(parse)
    ensures forall line :: LineThrows(parse, line) <==> Throws(MatchesOf(line), dir)
  {
    forall line, c
      ensures parse(line, c).Threw? <==> Throws(MatchesOf(line), dir)
      ensures parse(line, c).Done? ==> parse(line, c).state.rawline.rawline == line
      ensures CatalogGrows(c, FinalCatalog(parse(line, c)))
    {
      var m := MatchesOf(line);
      var st := ParseState(InitialRawline(line), c);
      assert parse(line, c) == ParseLine(line, st, dir);
      ParseThrowsExactly(m, st, dir);
      if !Throws(m, dir) {
        ParseFields(m, line, c, dir);
      }
      ParseCatalog(m, st, dir);
    }
  }

  /** A line throws when the parser throws on it. */
  predicate LineThrows(parse: LineParser, line: string)
  {
    parse(line, map[]).Threw?
  }

  /** One pass of the loop body (lines 91-110). */
  function IngestLine(s: Store, line: string, fileId: int, stamp: string -> Instant, parse: LineParser): (r: (Store, bool))
    ensures IsBlank(line) ==> r == (s, true)
  {
    if IsBlank(line) then (s, true)
    else
      match parse(line, s.catalog)
      case Threw(c) => (s.(catalog := c), false)
      case Done(ps) =>
        (Store(s.rawlines[line := ps.rawline],
               s.events[s.nextEventId := EventFor(s.nextEventId, fileId, line, stamp)],
               s.nextEventId + 1,
               ps.catalog), true)
  }

  /** A line the parser completes on is filed and gets the next event. */
  lemma IngestLineDone(s: Store, line: string, fileId: int, stamp: string -> Instant, parse: LineParser, rl: Rawline, c: map<string, Action>)
    requires !IsBlank(line) && parse(line, s.catalog) == Done(ParseState(rl, c))
    ensures IngestLine(s, line, fileId, stamp, parse) ==
            (Store(s.rawlines[line := rl], s.events[s.nextEventId := EventFor(s.nextEventId, fileId, line, stamp)],
                   s.nextEventId + 1, c), true)
  {
  }

  /** A line the parser throws on leaves only its catalog changes behind. */
  lemma IngestLineThrew(s: Store, line: string, fileId: int, stamp: string -> Instant, parse: LineParser, c: map<string, Action>)
    requires !IsBlank(line) && parse(line, s.catalog) == Threw(c)
    ensures IngestLine(s, line, fileId, stamp, parse) == (s.(catalog := c), false)
  {
  }

  /** The loop over the lines (lines 89-110), stopping at the first throw. */
  function Ingest(lines: seq<string>, s: Store, fileId: int, stamp: string -> Instant, parse: LineParser): (Store, bool)
  {
    if lines == [] then (s, true)
    else
      var (s1, ok) := Ingest(lines[..|lines| - 1], s, fileId, stamp, parse);
      if !ok then (s1, false) else IngestLine(s1, lines[|lines| - 1], fileId, stamp, parse)
  }

  /** The lines that are not skipped, in order. */
  function NonBlank(lines: seq<string>): (r: seq<string>)
    ensures forall k :: 0 <= k < |r| ==> !IsBlank(r[k])
    ensures |r| <= |lines|
  {
    if lines == [] then []
    else
      var last := lines[|lines| - 1];
      NonBlank(lines[..|lines| - 1]) + (if IsBlank(last) then [] else [last])
  }

  /** Blank lines change nothing: the run over all lines is the run over the
      non-blank ones. */
  lemma {:induction false} IngestSkipsBlank(lines: seq<string>, s: Store, fileId: int, stamp: string -> Instant, parse: LineParser)
    ensures Ingest(lines, s, fileId, stamp, parse) == Ingest(NonBlank(lines), s, fileId, stamp, parse)
  {
    if lines != [] {
      var init, last := lines[..|lines| - 1], lines[|lines| - 1];
      IngestSkipsBlank(init, s, fileId, stamp, parse);
      var nb := NonBlank(init);
      if !IsBlank(last) {
        assert NonBlank(lines) == nb + [last];
        assert (nb + [last])[..|nb + [last]| - 1] == nb;
      } else {
        assert NonBlank(lines) == nb;
      }
    }
  }

  /** Once a line has thrown, further lines change nothing. */
  lemma {:induction false} IngestStops(lines: seq<string>, n: nat, s: Store, fileId: int, stamp: string -> Instant, parse: LineParser)
    requires n <= |lines| && !Ingest(lines[..n], s, fileId, stamp, parse).1
    ensures Ingest(lines, s, fileId, stamp, parse) == Ingest(lines[..n], s, fileId, stamp, parse)
    decreases |lines|
  {
    if n < |lines| {
      assert lines[..|lines| - 1][..n] == lines[..n];
      IngestStops(lines[..|lines| - 1], n, s, fileId, stamp, parse);
    } else {
      assert lines[..n] == lines;
    }
  }

  /** One non-blank line: on success the line's raw line is filed under its
      text and one event is added under the next id; on a throw no table but
      the catalog changes. */
  lemma IngestLineEffect(s: Store, line: string, fileId: int, stamp: string -> Instant, parse: LineParser)
    requires ParserFacts(parse) && !IsBlank(line)
    ensures var (r, ok) := IngestLine(s, line, fileId, stamp, parse);
            (ok <==> !LineThrows(parse, line)) &&
            (ok ==> r.nextEventId == s.nextEventId + 1 &&
                    r.events == s.events[s.nextEventId := EventFor(s.nextEventId, fileId, line, stamp)] &&
                    line in r.rawlines && r.rawlines[line].rawline == line &&
                    r.rawlines.Keys == s.rawlines.Keys + {line} &&
                    forall k :: k in s.rawlines && k != line ==> r.rawlines[k] == s.rawlines[k]) &&
            (!ok ==> r.nextEventId == s.nextEventId && r.events == s.events && r.rawlines == s.rawlines)
  {
  }

  /** On lines none of which is blank, the run succeeds exactly when no line
      throws; it gets through the lines before the first one that throws and
      hands out one event id for each. */
  lemma {:induction false} IngestProgress(lines: seq<string>, s: Store, fileId: int, stamp: string -> Instant, parse: LineParser)
    requires ParserFacts(parse)
    requires forall k :: 0 <= k < |lines| ==> !IsBlank(lines[k])
    ensures var (r, ok) := Ingest(lines, s, fileId, stamp, parse);
            var done := r.nextEventId - s.nextEventId;
            (ok <==> forall k :: 0 <= k < |lines| ==> !LineThrows(parse, lines[k])) &&
            0 <= done <= |lines| && (ok ==> done == |lines|) &&
            (!ok ==> done < |lines| && LineThrows(parse, lines[done]) &&
                     forall k :: 0 <= k < done ==> !LineThrows(parse, lines[k]))
    decreases |lines|
  {
    if lines != [] {
      var init, last := lines[..|lines| - 1], lines[|lines| - 1];
      IngestProgress(init, s, fileId, stamp, parse);
      var (r1, ok1) := Ingest(init, s, fileId, stamp, parse);
      if ok1 {
        IngestLineEffect(r1, last, fileId, stamp, parse);
      }
      assert forall k :: 0 <= k < |init| ==> lines[k] == init[k];
    }
  }

  /** The run hands out ids from the next free one up and leaves the events
      it found alone. */
  lemma {:induction false} IngestEventIds(lines: seq<string>, s: Store, fileId: int, stamp: string -> Instant, parse: LineParser)
    requires ParserFacts(parse)
    requires EventsValid(s)
    ensures var r := Ingest(lines, s, fileId, stamp, parse).0;
            EventsValid(r) && s.nextEventId <= r.nextEventId &&
            (forall id :: id in r.events <==> id in s.events || s.nextEventId <= id < r.nextEventId) &&
            (forall id :: id in s.events ==> r.events[id] == s.events[id])
    decreases |lines|
  {
    if lines != [] {
      var init, last := lines[..|lines| - 1], lines[|lines| - 1];
      IngestEventIds(init, s, fileId, stamp, parse);
      var (r1, ok1) := Ingest(init, s, fileId, stamp, parse);
      if ok1 && !IsBlank(last) {
        IngestLineEffect(r1, last, fileId, stamp, parse);
      }
    }
  }

  /** On lines none of which is blank: the events the run adds are one per
      line it got through, in order, each with its id, the file's id and the
      line, and each such line is filed as a raw line. */
  lemma {:induction false} IngestEvents(lines: seq<string>, s: Store, fileId: int, stamp: string -> Instant, parse: LineParser)
    requires ParserFacts(parse)
    requires forall k :: 0 <= k < |lines| ==> !IsBlank(lines[k])
    ensures var r := Ingest(lines, s, fileId, stamp, parse).0;
            var done := r.nextEventId - s.nextEventId;
            0 <= done <= |lines| &&
            forall k :: 0 <= k < done ==>
              Records(r, s.nextEventId + k, fileId, lines[k], stamp) && lines[k] in r.rawlines
    decreases |lines|
  {
    if lines != [] {
      var init, last := lines[..|lines| - 1], lines[|lines| - 1];
      IngestEvents(init, s, fileId, stamp, parse);
      IngestProgress(init, s, fileId, stamp, parse);
      var (r1, ok1) := Ingest(init, s, fileId, stamp, parse);
      var done1 := r1.nextEventId - s.nextEventId;
      if ok1 {
        IngestLineEffect(r1, last, fileId, stamp, parse);
        var (r, ok) := IngestLine(r1, last, fileId, stamp, parse);
        if ok {
          forall k | 0 <= k < done1 + 1
            ensures Records(r, s.nextEventId + k, fileId, lines[k], stamp) && lines[k] in r.rawlines
          {
            if k < done1 { assert lines[k] == init[k]; }
          }
        }
      } else {
        assert forall k :: 0 <= k < done1 ==> lines[k] == init[k];
      }
    }
  }

  /** Raw lines stay filed under their own text. */
  lemma {:induction false} IngestKeepsKeys(lines: seq<string>, s: Store, fileId: int, stamp: string -> Instant, parse: LineParser)
    requires ParserFacts(parse)
    requires RawlinesKeyed(s)
    ensures RawlinesKeyed(Ingest(lines, s, fileId, stamp, parse).0)
    decreases |lines|
  {
    if lines != [] {
      var init, last := lines[..|lines| - 1], lines[|lines| - 1];
      IngestKeepsKeys(init, s, fileId, stamp, parse);
      var (r1, ok1) := Ingest(init, s, fileId, stamp, parse);
      if ok1 && !IsBlank(last) {
        IngestLineEffect(r1, last, fileId, stamp, parse);
      }
    }
  }

  /** The catalog only grows over the run, thrown lines included. */
  lemma {:induction false} IngestCatalogGrows(lines: seq<string>, s: Store, fileId: int, stamp: string -> Instant, parse: LineParser)
    requires ParserFacts(parse)
    ensures CatalogGrows(s.catalog, Ingest(lines, s, fileId, stamp, parse).0.catalog)
    decreases |lines|
  {
    if lines != [] {
      var init, last := lines[..|lines| - 1], lines[|lines| - 1];
      IngestCatalogGrows(init, s, fileId, stamp, parse);
      var (r1, ok1) := Ingest(init, s, fileId, stamp, parse);
      if ok1 && !IsBlank(last) {
        assert CatalogGrows(r1.catalog, FinalCatalog(parse(last, r1.catalog)));
      }
    }
  }

  /** A file's run succeeds exactly when none of its non-blank lines throws,
      and then it records one event for each of them, in order; with the
      model's parser, a line throws as `ParserHasFacts` says. */
  lemma IngestFile(lines: seq<string>, s: Store, fileId: int, stamp: string -> Instant, parse: LineParser)
    requires ParserFacts(parse)
    requires EventsValid(s)
    ensures var nb := NonBlank(lines);
            var (r, ok) := Ingest(lines, s, fileId, stamp, parse);
            (ok <==> forall k :: 0 <= k < |nb| ==> !LineThrows(parse, nb[k])) &&
            (ok ==> r.nextEventId == s.nextEventId + |nb| &&
                    forall k :: 0 <= k < |nb| ==> Records(r, s.nextEventId + k, fileId, nb[k], stamp))
  {
    var nb := NonBlank(lines);
    IngestSkipsBlank(lines, s, fileId, stamp, parse);
    IngestProgress(nb, s, fileId, stamp, parse);
    IngestEvents(nb, s, fileId, stamp, parse);
    var (r, ok) := Ingest(lines, s, fileId, stamp, parse);
    assert (r, ok) == Ingest(nb, s, fileId, stamp, parse);
  }

  /** The status the file ends with (lines 113 and 117). */
  function FinalStatus(ok: bool): LogFileStatus
  {
    if ok then Uploaded else Failed
  }
}
