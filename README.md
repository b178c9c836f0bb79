# Mini-SIEM core, modelled in Dafny

Mini-SIEM is a small security-event manager. A Spring backend ingests log
files, turns each line into a `Rawline` record plus a `Logevent`, and serves
tables of events, alerts, alert rules, incident reports and users. A
TypeScript front end shows these tables and keeps track of the logged-in
user. This project models the decision logic of both halves and proves what
it promises.

Backend (Java):

- **Log ingestion**. `LogfileService.processLogfileContent`,
  `parseAndCreateRawline` and `parseLogLine` make up the ingestion path.
  - The content is split into lines and blank lines are skipped.
  - Each line runs through the cascade of pattern branches: timestamp and
    hostname, failed login, connection, HTTP, then `Source IP:` and
    `Destination IP:`.
  - Get-or-create fills the action catalog.
  - Each completed line files one raw line and one event.
  - The file ends `Uploaded`, or `Failed` as soon as a line throws.
  - The service is a class over table objects. Its methods are proved
    against pure specification functions (`LogParsing`, `Ingestion`), and
    the lemmas about those functions state the ordering, overwriting,
    accumulation and "nothing else changes" properties.
  - Each regular expression is written out as a recognizer with its
    capture groups (`LogPatterns`).
- **Controllers and services**. `EventController`, `EventcategoryService`,
  `UserController`, `UserService`, `AlertController` and
  `IncidentController` are state machines over tables (classes whose `rows`
  are maps or sets). Each answer is an HTTP outcome (`Responses.Response`).
  The proofs cover what changes and what does not.
- **The link key**. `IncidenteventlinkId` has `equals` and `hashCode`,
  modelled over nullable 32-bit `Integer` fields with explicit wrap-around.

Frontend (TypeScript):

- **JavaScript values**. JSON values are a datatype `Js`, with
  truthiness, `?.`, `String(v)`, `JSON.stringify` and `parseInt` written out
  (`JsValues`). An exception is a `Thrown` value in a `Result`.
- **Page logic**:
  - the two `extractValue` helpers, `shortenText`, the advanced-search
    parameters and the table cells (`Display`);
  - the response normalisation of the event views;
  - the keyword classifier and address extraction of the dashboard;
  - the badge classes (`Badges`);
  - the rows, fallbacks and empty messages of the rule, alert, threat and
    incident tables;
  - the rule toggle, the frequent-rule tuples, report lookup by id and the
    link payload;
  - the advanced-report parameters.
- **Sessions**. The module-level `loggedInUserId` of `auth-service.ts` and
  the separate one of `main.ts` are fields of two classes (`Sessions`),
  updated by their handlers.
- **HTTP plumbing**. A network answer is an input to the model: the
  response, or `Unreachable` when `fetch` throws. `fetchApi` turns a
  response that is not ok into an error, so the later `!response.ok` checks
  of the services never run (`Api`).

All paths below are relative to the repository root. Where the code and the
repository's documentation disagree, the model follows the code:

- The parser branches run in the order the Java code has them. The
  documentation lists a different order.
- `LogFileStatus` has three constants (`UPLOADED`, `PENDING`, `FAILED`). The
  service's `Uploaded` and `Failed` are modelled as two of them.
- The documentation promises that a failed create, toggle or lookup throws an
  error carrying the response body. The code's `fetchApi` has already thrown
  "API error: <status> <statusText>", so the model's errors carry the status
  and its text only.

## Model

| member | source | states |
|---|---|---|
| LogfileServices.LogfileService.ProcessLogfileContent | siem/src/main/java/edu/trincoll/siem/Service/LogfileService.java:81-120 | null or empty content: the file is saved `Failed` and no table changes; otherwise the tables become the result of the ingestion loop, and the file is saved `Uploaded` when every line went through, `Failed` otherwise |
| LogfileServices.LogfileService.IngestLines | siem/src/main/java/edu/trincoll/siem/Service/LogfileService.java:89-110 | the loop leaves the store and the flag that `Ingestion.Ingest` gives for the lines |
| LogfileServices.LogfileService.IngestLine | siem/src/main/java/edu/trincoll/siem/Service/LogfileService.java:91-109 | one loop pass leaves the store and flag that `Ingestion.IngestLine` gives |
| LogfileServices.LogfileService.IsBlankLine | siem/src/main/java/edu/trincoll/siem/Service/LogfileService.java:92-94 | a line is skipped exactly when its `trim()` is empty |
| LogfileServices.LogfileService.RecordEvent | siem/src/main/java/edu/trincoll/siem/Service/LogfileService.java:100-106 | exactly one event, for this file and this line, is added under the next id |
| LogfileServices.LogfileService.ParseAndCreateRawline | siem/src/main/java/edu/trincoll/siem/Service/LogfileService.java:125-135 | the raw line is parsed from the line's defaults and, unless the parser throws, filed under the line's text; a throw files nothing |
| LogfileServices.LogfileService.ParseLogLine | siem/src/main/java/edu/trincoll/siem/Service/LogfileService.java:140-407 | the mutated raw line and catalog are what `ParseLine` computes, or the throw it predicts; the key text never changes |
| LogfileServices.LogfileService.TimestampBranch | siem/src/main/java/edu/trincoll/siem/Service/LogfileService.java:142-159 | the timestamp/hostname branch does what `TimestampStep` says |
| LogfileServices.LogfileService.LoginBranch | siem/src/main/java/edu/trincoll/siem/Service/LogfileService.java:162-193 | the failed-login branch does what `LoginStep` says |
| LogfileServices.LogfileService.ConnectionDevices | siem/src/main/java/edu/trincoll/siem/Service/LogfileService.java:200-213 | the source device is set when the source address resolves to a device; the destination one only after the source address resolved |
| LogfileServices.LogfileService.ConnectionBranch | siem/src/main/java/edu/trincoll/siem/Service/LogfileService.java:196-266 | the connection branch does what `ConnectionStep` says |
| LogfileServices.LogfileService.HttpBranch | siem/src/main/java/edu/trincoll/siem/Service/LogfileService.java:269-298 | the HTTP branch does what `HttpStep` says |
| LogfileServices.LogfileService.AddressBranch | siem/src/main/java/edu/trincoll/siem/Service/LogfileService.java:300-406 | the `Source IP:` and `Destination IP:` branches do what `AddressStep` says |
| LogfileServices.LogfileService.GetOrCreateAction | siem/src/main/java/edu/trincoll/siem/Service/LogfileService.java:228-234 | the catalog becomes `EnsureAction` of itself; a stored action is reused as it was |
| LogfileServices.LogfileService.FindDevice | siem/src/main/java/edu/trincoll/siem/Service/LogfileService.java:203-205 | the device found for an address text is the one `DeviceOf` names |
| LogfileServices.LogfileService.SaveLogfile | siem/src/main/java/edu/trincoll/siem/Service/LogfileService.java:62-64 | a file with an id overwrites its row; a new one gets a fresh id; nothing else changes |
| LogParsing.DeviceByIp | siem/src/main/java/edu/trincoll/siem/Service/LogfileService.java:203-205 | no device exactly when no device has the address; otherwise the first one that has it |
| LogParsing.DeviceByHostname | siem/src/main/java/edu/trincoll/siem/Service/LogfileService.java:150-154 | none, one, or several devices with the hostname, and `SeveralDevices` exactly when two or more have it |
| LogParsing.EnsureAction | siem/src/main/java/edu/trincoll/siem/Service/LogfileService.java:228-234 | the name is in the catalog afterwards; the other entries are unchanged; a missing name gets a new action of that name |
| LogParsing.EnsureActionIdempotent | siem/src/main/java/edu/trincoll/siem/Service/LogfileService.java:228-234 | get-or-create twice is get-or-create once |
| LogParsing.ParsePort | siem/src/main/java/edu/trincoll/siem/Service/LogfileService.java:215-222 | no group gives no port; a digit group gives its value, or an overflow exactly when it exceeds 2^31-1 |
| LogParsing.InitialRawline | siem/src/main/java/edu/trincoll/siem/Service/LogfileService.java:126-128 | a new raw line has the line as key and as message |
| LogParsing.Put | siem/src/main/java/edu/trincoll/siem/Service/LogfileService.java:282-294 | adding to parsed data creates the map if null, keeps every earlier key and adds the new entries |
| LogParsing.TimestampStep | siem/src/main/java/edu/trincoll/siem/Service/LogfileService.java:142-159 | no match changes nothing; a match throws exactly when several devices share the hostname, else sets the source device only if one is found and replaces parsed data with timestamp and hostname |
| LogParsing.LoginStep | siem/src/main/java/edu/trincoll/siem/Service/LogfileService.java:162-193 | a match sets LOGIN_FAILED and the login message; username and trimmed reason go into parsed data only when a Reason matched |
| LogParsing.ConnectionStep | siem/src/main/java/edu/trincoll/siem/Service/LogfileService.java:196-266 | a match throws exactly on a port overflow; otherwise it sets CONNECTION, the message, devices found and ports present, and keeps the rest |
| LogParsing.HttpStep | siem/src/main/java/edu/trincoll/siem/Service/LogfileService.java:269-298 | a match sets the method as action, the HTTP message, and adds url and statusCode to parsed data |
| LogParsing.AddressStep | siem/src/main/java/edu/trincoll/siem/Service/LogfileService.java:300-406 | a labelled address throws exactly on a port overflow; otherwise it sets the device if found and the port if present, and adds the address under `sourceIp` or `destinationIp` to parsed data; nothing else changes |
| LogParsingFacts.ParseThrowsExactly | siem/src/main/java/edu/trincoll/siem/Service/LogfileService.java:140-407 | parsing throws exactly on an ambiguous hostname or an overflowing port |
| LogParsingFacts.ParseFields | siem/src/main/java/edu/trincoll/siem/Service/LogfileService.java:140-407 | a line that does not throw gives the raw line `ExpectedRawline` describes field by field |
| LogParsingFacts.ParseKey | siem/src/main/java/edu/trincoll/siem/Service/LogfileService.java:126-128 | parsing never changes the key text |
| LogParsingFacts.ParseActionMessage | siem/src/main/java/edu/trincoll/siem/Service/LogfileService.java:162-298 | the last of the login, connection and HTTP branches to match decides action and message; with none the message is the line |
| LogParsingFacts.ParseParsedData | siem/src/main/java/edu/trincoll/siem/Service/LogfileService.java:142-294 | parsed data is the timestamp map, then the login entries, then the HTTP entries, then the `sourceIp` and `destinationIp` entries of the labelled addresses, accumulated |
| LogParsingFacts.ParseSourceDevice | siem/src/main/java/edu/trincoll/siem/Service/LogfileService.java:142-352 | the source device is the last one found by hostname, connection or `Source IP:` |
| LogParsingFacts.ParseDestinationDevice | siem/src/main/java/edu/trincoll/siem/Service/LogfileService.java:196-406 | the destination device is the last one found by connection or `Destination IP:` |
| LogParsingFacts.ParseSourcePort | siem/src/main/java/edu/trincoll/siem/Service/LogfileService.java:215-337 | the source port is the last one present among the connection and `Source IP:` matches |
| LogParsingFacts.ParseDestinationPort | siem/src/main/java/edu/trincoll/siem/Service/LogfileService.java:219-391 | the destination port is the last one present among the connection and `Destination IP:` matches |
| LogParsingFacts.ParseCatalog | siem/src/main/java/edu/trincoll/siem/Service/LogfileService.java:162-298 | the catalog only gains the actions the matching branches name, thrown lines included |
| LogPatterns.MatchTimestampHost | siem/src/main/java/edu/trincoll/siem/Service/LogfileService.java:142 | a match starts the line with the timestamp and captures a non-empty hostname without `:` followed by `:` |
| LogPatterns.FindLogin | siem/src/main/java/edu/trincoll/siem/Service/LogfileService.java:162 | a match captures a non-empty user name without blanks, after "User" |
| LogPatterns.FindReason | siem/src/main/java/edu/trincoll/siem/Service/LogfileService.java:176 | a match captures a non-empty reason after "Reason:", ending at `$` or `-` |
| LogPatterns.FindConnection | siem/src/main/java/edu/trincoll/siem/Service/LogfileService.java:196 | a match captures two dotted addresses and optional digit ports after "Connection from " |
| LogPatterns.FindHttp | siem/src/main/java/edu/trincoll/siem/Service/LogfileService.java:269 | a match captures one of the seven methods, a non-blank url and a three-digit status |
| LogPatterns.FindSourceIp | siem/src/main/java/edu/trincoll/siem/Service/LogfileService.java:301 | a match captures a dotted address and an optional port after "Source IP:" |
| LogPatterns.FindDestinationIp | siem/src/main/java/edu/trincoll/siem/Service/LogfileService.java:355 | a match captures a dotted address and an optional port after "Destination IP:" |
| LogPatterns.FindFrom | siem/src/main/java/edu/trincoll/siem/Service/LogfileService.java:143 | `find()` answers the match at the first position where the pattern matches, none when there is none |
| Ingestion.IngestLine | siem/src/main/java/edu/trincoll/siem/Service/LogfileService.java:91-110 | a blank line changes nothing |
| Ingestion.IngestLineEffect | siem/src/main/java/edu/trincoll/siem/Service/LogfileService.java:95-109 | a non-blank line succeeds exactly when the parser does not throw; it then files its raw line and one event under the next id, and on a throw only the catalog changes |
| Ingestion.IngestSkipsBlank | siem/src/main/java/edu/trincoll/siem/Service/LogfileService.java:92-94 | running over all lines is running over the non-blank ones |
| Ingestion.IngestStops | siem/src/main/java/edu/trincoll/siem/Service/LogfileService.java:116-118 | after a line has thrown, later lines change nothing |
| Ingestion.IngestProgress | siem/src/main/java/edu/trincoll/siem/Service/LogfileService.java:89-118 | the run succeeds exactly when no line throws, and gives one event id for each line before the first throw |
| Ingestion.IngestEventIds | siem/src/main/java/edu/trincoll/siem/Service/LogfileService.java:100-106 | event ids are handed out from the next free one up, and earlier events stay as they were |
| Ingestion.IngestEvents | siem/src/main/java/edu/trincoll/siem/Service/LogfileService.java:95-106 | the added events are one per line processed, in order, each with this file and its line, and each line is filed as a raw line |
| Ingestion.IngestKeepsKeys | siem/src/main/java/edu/trincoll/siem/Service/LogfileService.java:125-135 | raw lines stay filed under their own text |
| Ingestion.IngestCatalogGrows | siem/src/main/java/edu/trincoll/siem/Service/LogfileService.java:228-234 | the action catalog only grows over a run |
| Ingestion.IngestFile | siem/src/main/java/edu/trincoll/siem/Service/LogfileService.java:81-120 | a file succeeds exactly when none of its non-blank lines throws, and then records one event per non-blank line, in order |
| Ingestion.ParserHasFacts | siem/src/main/java/edu/trincoll/siem/Service/LogfileService.java:125-135 | the parser of the model keeps the key text, only grows the catalog, and throws independently of it |
| Text.SplitLines | siem/src/main/java/edu/trincoll/siem/Service/LogfileService.java:89 | `split("\\r?\\n")` gives the pieces between the `\n` characters, each less the `\r` of a `\r\n` and the last one whole; only trailing pieces that are then empty are dropped, and a content without `\n` comes back whole |
| Text.PiecesJoin | siem/src/main/java/edu/trincoll/siem/Service/LogfileService.java:89 | joining the pieces with line breaks gives the content back |
| Text.Trim | siem/src/main/java/edu/trincoll/siem/Service/LogfileService.java:92 | `trim()` is empty exactly for a blank line, and otherwise starts and ends above U+0020 |
| Text.TrimIsSlice | siem/src/main/java/edu/trincoll/siem/Service/LogfileService.java:188 | `trim()` keeps a slice and cuts only characters up to U+0020 |
| Text.ParseJavaInt | siem/src/main/java/edu/trincoll/siem/Service/LogfileService.java:217 | `Integer.parseInt` of digits succeeds exactly when the value fits in 32 bits, and gives that value |
| Text.IntToString | frontend/src/services/incident-report-service.ts:53 | an integer's text is its sign and its digits |
| Text.FoldWord | frontend/src/services/alert-rule-service.ts:587-598 | comparing the upper-cased text with an upper-case word is comparing the lower-cased text with its lower-case form |
| EventControllers.EventcategoryService.CategoryExists | siem/src/main/java/edu/trincoll/siem/Service/EventcategoryService.java:61-63 | true exactly when a category has that name |
| EventControllers.EventcategoryService.CreateCategory | siem/src/main/java/edu/trincoll/siem/Service/EventcategoryService.java:38-40 | the category is stored under its name, replacing a namesake |
| EventControllers.EventcategoryService.UpdateCategory | siem/src/main/java/edu/trincoll/siem/Service/EventcategoryService.java:43-49 | an unknown name gives nothing and no change; a known one gets only the new description |
| EventControllers.EventcategoryService.DeleteCategory | siem/src/main/java/edu/trincoll/siem/Service/EventcategoryService.java:52-58 | true with the category gone exactly when it was stored; false with no change otherwise |
| EventControllers.EventController.CreateCategory | siem/src/main/java/edu/trincoll/siem/Controller/EventController.java:67-73 | Conflict and no change for a taken name; otherwise Created with the saved category |
| EventControllers.EventController.CreateAction | siem/src/main/java/edu/trincoll/siem/Controller/EventController.java:131-137 | Conflict and no change for an existing action; otherwise Created and saved |
| EventControllers.EventController.UpdateAction | siem/src/main/java/edu/trincoll/siem/Controller/EventController.java:141-154 | NotFound for an unknown name; otherwise only the category changes, and only to a non-null one |
| EventControllers.EventController.DeleteAction | siem/src/main/java/edu/trincoll/siem/Controller/EventController.java:158-164 | NoContent with the action gone when it exists; otherwise NotFound and no change |
| EventControllers.EventController.UpdateEvent | siem/src/main/java/edu/trincoll/siem/Controller/EventController.java:229-251 | NotFound for an unknown id; otherwise the event merged with the request, saved under its id |
| EventControllers.MergeEvent | siem/src/main/java/edu/trincoll/siem/Controller/EventController.java:236-247 | every non-null request field replaces the stored one, every null one keeps it, and the id is never touched |
| EventControllers.MergeIdempotent | siem/src/main/java/edu/trincoll/siem/Controller/EventController.java:236-247 | merging a request twice is merging it once |
| EventControllers.MergeNothing | siem/src/main/java/edu/trincoll/siem/Controller/EventController.java:236-247 | a request of nulls leaves the event unchanged |
| EventControllers.MergeFull | siem/src/main/java/edu/trincoll/siem/Controller/EventController.java:236-247 | a request carrying another event's fields, with its alert and timestamp present, copies every field of that event but the id |
| EventControllers.EventController.RawlineDetails | siem/src/main/java/edu/trincoll/siem/Controller/EventController.java:272-282 | BadRequest without a "rawline" key, NotFound for an unknown line, otherwise Ok with the record |
| EventControllers.EventController.DeleteRawline | siem/src/main/java/edu/trincoll/siem/Controller/EventController.java:318-330 | BadRequest without the key, NotFound and no change for an unknown line, otherwise NoContent with the line gone |
| EventControllers.EventController.CreateLogfile | siem/src/main/java/edu/trincoll/siem/Controller/EventController.java:350-370 | the file is saved `Uploaded` whatever status it came with and a missing upload time becomes now; a file without an id gets a fresh one, and one carrying a stored id overwrites that row |
| Responses.Lookup | siem/src/main/java/edu/trincoll/siem/Controller/EventController.java:274-276 | a missing key and a null value read alike as null |
| Users.UserService.CheckUser | siem/src/main/java/edu/trincoll/siem/Service/UserService.java:34-40 | the password check decides, and a null password throws |
| Users.UserService.AuthenticateUser | siem/src/main/java/edu/trincoll/siem/Service/UserService.java:31-43 | the user exactly when one has the username and the password checks out; null otherwise; no table changes |
| Users.UserService.FindByUsername | siem/src/main/java/edu/trincoll/siem/Service/UserService.java:32-33 | the one user with the username, none for a null or unknown one |
| Users.UserService.ExistsByUsername | siem/src/main/java/edu/trincoll/siem/Service/UserService.java:157-159 | true exactly when a stored user has the username |
| Users.UserService.ExistsByEmail | siem/src/main/java/edu/trincoll/siem/Service/UserService.java:166-168 | true exactly when a stored user has the email |
| Users.UserService.CreateUser | siem/src/main/java/edu/trincoll/siem/Service/UserService.java:119-131 | null and no change when the username or email is taken; otherwise a new user with the given fields and the password stored unchanged |
| Users.UserService.SaveUser | siem/src/main/java/edu/trincoll/siem/Service/UserService.java:138-141 | the user's row is overwritten under its id and no other row changes |
| Users.UserService.DeleteUser | siem/src/main/java/edu/trincoll/siem/Service/UserService.java:147-150 | the user with that id is removed and no other |
| Users.UserService.UpdateLastLogin | siem/src/main/java/edu/trincoll/siem/Service/UserService.java:175-181 | a stored user's last login becomes now; an unknown id changes nothing |
| Users.UserController.Login | siem/src/main/java/edu/trincoll/siem/Controller/UserController.java:28-42 | Ok with the user when authentication succeeds, otherwise Unauthorized "Invalid credentials"; a throwing check is a server error |
| Users.UserController.CreateUser | siem/src/main/java/edu/trincoll/siem/Controller/UserController.java:87-110 | an unknown role is refused first, then a taken username before a taken email; otherwise Created with the new user |
| Users.UserController.UpdateUser | siem/src/main/java/edu/trincoll/siem/Controller/UserController.java:112-136 | a mismatched id is refused before any lookup, an unknown id is NotFound, a changed username or email that another user has is refused; otherwise the corrected row is written |
| Users.UserController.DeleteUser | siem/src/main/java/edu/trincoll/siem/Controller/UserController.java:138-146 | NotFound for an unknown id; otherwise Ok with the user removed |
| Users.UserController.UpdateLastLogin | siem/src/main/java/edu/trincoll/siem/Controller/UserController.java:148-157 | NotFound for an unknown id; otherwise Ok with the last login set |
| Users.UniqueAfterUpdate | siem/src/main/java/edu/trincoll/siem/Controller/UserController.java:124-132 | a row that keeps its own username and email or takes free ones clashes with no other user |
| Users.UsernameFreeElsewhere | siem/src/main/java/edu/trincoll/siem/Controller/UserController.java:124-127 | a username free among the other users belongs to none of them |
| Users.EmailFreeElsewhere | siem/src/main/java/edu/trincoll/siem/Controller/UserController.java:129-132 | an email free among the other users belongs to none of them |
| Users.StoredRowAsWritten | siem/src/main/java/edu/trincoll/siem/Controller/UserController.java:134 | the row the update writes as the code stands: the request body, refused when a NOT NULL column is null |
| Users.UpdateAsWrittenFails | siem/src/main/java/edu/trincoll/siem/Model/User.java:31-33 | no update that reaches the save succeeds as written |
| Users.UpdatedRow | siem/src/main/java/edu/trincoll/siem/Controller/UserController.java:112-136 | the corrected row keeps the stored id, hash and creation time and takes the profile fields |
| Users.UpdatedRowSucceeds | siem/src/main/java/edu/trincoll/siem/Controller/UserController.java:112-136 | the corrected update succeeds for every body naming a username and email, and an unchanged body writes the stored user back |
| Entities.RoleValueOf | siem/src/main/java/edu/trincoll/siem/Controller/UserController.java:94 | `Role.valueOf` accepts exactly ADMIN and ANALYST |
| Entities.AlertStatusValueOf | siem/src/main/java/edu/trincoll/siem/Controller/AlertController.java:84 | `AlertStatus.valueOf` accepts exactly OPEN, INVESTIGATING and RESOLVED |
| Entities.DisplayValuesAreNotNames | siem/src/main/java/edu/trincoll/siem/Model/Enums/AlertStatus.java:7-20 | `valueOf` refuses what `toString` prints, for every constant |
| Alerts.AlertController.GetAlertsByRule | siem/src/main/java/edu/trincoll/siem/Controller/AlertController.java:50-57 | no alerts for an unknown rule; otherwise exactly the rule's alerts |
| Alerts.AlertController.GetAlertsByRuleAndStatus | siem/src/main/java/edu/trincoll/siem/Controller/AlertController.java:64-71 | no alerts for an unknown rule; otherwise exactly its alerts with the status |
| Alerts.AlertController.UpdateAlertStatus | siem/src/main/java/edu/trincoll/siem/Controller/AlertController.java:78-100 | a bad status is BadRequest whatever the id; an unknown id is NotFound with no change; otherwise only the status changes and the alert is returned |
| Alerts.OfferedStatusesAreRefused | siem/src/main/java/edu/trincoll/siem/Controller/AlertController.java:86 | every value the error message offers is one `valueOf` refuses |
| Incidents.IncidentController.GetReportByTitle | siem/src/main/java/edu/trincoll/siem/Controller/IncidentController.java:28-32 | NotFound when no report has the title, Ok with the one that has it, a server error when several do |
| Incidents.IncidentController.GetLinksByReport | siem/src/main/java/edu/trincoll/siem/Controller/IncidentController.java:49-58 | NotFound for an unknown report; otherwise exactly its links |
| Incidents.IncidentController.GetLinksByEvent | siem/src/main/java/edu/trincoll/siem/Controller/IncidentController.java:61-67 | exactly the event's links, known event or not |
| Incidents.IncidentController.DoesLinkExist | siem/src/main/java/edu/trincoll/siem/Controller/IncidentController.java:70-81 | NotFound for an unknown report; otherwise whether the pair is linked |
| Incidents.IncidentController.CountEventsByReport | siem/src/main/java/edu/trincoll/siem/Controller/IncidentController.java:84-93 | NotFound for an unknown report; otherwise the number of its links |
| Incidents.IncidentController.CountReportsByEvent | siem/src/main/java/edu/trincoll/siem/Controller/IncidentController.java:96-102 | the number of the event's links, zero for an unknown event |
| Incidents.IncidentController.DeleteLinksByReport | siem/src/main/java/edu/trincoll/siem/Controller/IncidentController.java:105-114 | NotFound and no change for an unknown report; otherwise NoContent with exactly its links removed |
| Incidents.IncidentController.DeleteLinksByEvent | siem/src/main/java/edu/trincoll/siem/Controller/IncidentController.java:117-123 | NoContent with exactly the event's links removed, even for an unknown event |
| Incidents.DeleteLinksOfReport | siem/src/main/java/edu/trincoll/siem/Controller/IncidentController.java:105-114 | after the delete the report has no links, every other report keeps its links, and none are added |
| Incidents.DeleteLinksOfEvent | siem/src/main/java/edu/trincoll/siem/Controller/IncidentController.java:117-123 | after the delete the event has no links and every other event keeps its links |
| Incidents.DerivedDeleteAsWritten | siem/src/main/java/edu/trincoll/siem/Controller/IncidentController.java:111 | the derived delete as it runs, outside a transaction: it throws once it has a row to remove |
| Incidents.DeleteLinksAsWrittenFails | siem/src/main/java/edu/trincoll/siem/Controller/IncidentController.java:105-114 | as written, deleting a report's links fails exactly when it has links, and removes none |
| LinkIds.EqualsReflexive | siem/src/main/java/edu/trincoll/siem/Model/IncidenteventlinkId.java:24 | a key object equals itself |
| LinkIds.EqualsRefusesOthers | siem/src/main/java/edu/trincoll/siem/Model/IncidenteventlinkId.java:25 | a key object never equals null or an object of another class |
| LinkIds.EqualsIffFieldsEqual | siem/src/main/java/edu/trincoll/siem/Model/IncidenteventlinkId.java:26-28 | two key objects are equal exactly when both ids are |
| LinkIds.EqualsEquivalence | siem/src/main/java/edu/trincoll/siem/Model/IncidenteventlinkId.java:22-29 | `equals` is symmetric and transitive |
| LinkIds.HashCode | siem/src/main/java/edu/trincoll/siem/Model/IncidenteventlinkId.java:31-34 | the hash is 961 + 31·h(reportid) + h(logeventid), truncated to 32 bits |
| LinkIds.ToInt32 | siem/src/main/java/edu/trincoll/siem/Model/IncidenteventlinkId.java:33 | the 32-bit value agrees with the exact one modulo 2^32 and equals it when it fits |
| LinkIds.EqualKeysHashAlike | siem/src/main/java/edu/trincoll/siem/Model/IncidenteventlinkId.java:31-34 | equal keys have equal hashes |
| LinkIds.HashCollisions | siem/src/main/java/edu/trincoll/siem/Model/IncidenteventlinkId.java:31-34 | different keys can hash alike: (0, 31) and (1, 0), and nulls and zeros |
| LinkIds.HashWrapsAround | siem/src/main/java/edu/trincoll/siem/Model/IncidenteventlinkId.java:31-34 | the hash of (2^31-1, 0) wraps to a negative number |
| LinkIds.LinkKeysCompareAsEquals | siem/src/main/java/edu/trincoll/siem/Model/IncidenteventlinkId.java:22-29 | the link table's key pairs are equal exactly when their key objects are |
| Api.FetchApi | frontend/src/services/api.ts:4-39 | the response exactly when it is ok; "API error: <status> <statusText>" otherwise; a TypeError when the network fails |
| Api.FetchJson | frontend/src/services/api.ts:4-12 | the body exactly when the response is ok and the body is JSON; a SyntaxError for a body that is not JSON; the API error otherwise. `getThreatByIndicator` and `createIncidentReport` are this call, so their errors name the API status, never their own message or the body text |
| Api.ApiErrorNamesStatus | frontend/src/services/api.ts:8-10 | a response that is not ok always ends in an error starting "API error: <status>" |
| Sessions.AuthService.GetLoggedInUserId | frontend/src/services/auth-service.ts:6-8 | answers the stored id and changes nothing |
| Sessions.AuthService.SetLoggedInUserId | frontend/src/services/auth-service.ts:10-12 | the stored id becomes the value given, which the getter then answers |
| Sessions.AuthService.Login | frontend/src/services/auth-service.ts:14-50 | an ok reply with a truthy id stores and returns that id; every other outcome returns null and keeps the stored id |
| Sessions.AuthService.Register | frontend/src/services/auth-service.ts:52-67 | true exactly when the request went through with an ok status; the session is untouched |
| Sessions.AuthService.DeleteAccount | frontend/src/services/auth-service.ts:69-78 | true with the stored id cleared exactly when the delete succeeded; false with the id kept otherwise |
| Sessions.DashboardPage.SubmitLogin | frontend/src/main.ts:132-156 | the id answered replaces the session and a truthy one shows the dashboard; a throw changes nothing |
| Sessions.DashboardPage.SubmitRegister | frontend/src/main.ts:159-177 | the dashboard is shown whatever registration did, and nobody is logged in by it |
| Sessions.DashboardPage.Logout | frontend/src/main.ts:181-187 | nobody is logged in and the login section is back |
| Sessions.DashboardPage.DeleteAccount | frontend/src/main.ts:191-218 | refused without a logged-in user; nothing without confirmation; the session ends only when the server answered ok |
| Display.ExtractValue | frontend/src/utils/helpers.ts:4-23 | the fallback for a falsy value; for an object a truthy id, else a truthy name, else its JSON text exactly when that is under 50 characters and `[Complex Object]` otherwise; `String(v)` for anything else |
| Display.ExtractValueNeverBlank | frontend/src/utils/helpers.ts:4-23 | the answer is the fallback or truthy, so a non-empty fallback never leaves a blank cell |
| Display.RawlineExtractValue | frontend/src/services/rawline-service.ts:503-528 | 'N/A' for null or undefined; for an object a defined id, else a defined value, else the first own property; anything else as it is |
| Display.ExtractorsCompared | frontend/src/services/rawline-service.ts:503-528 | the two helpers agree on an object with a truthy id and differ on a falsy id and on `false` |
| Display.ShortenText | frontend/src/services/rawline-service.ts:494-496 | short text is kept; longer text keeps its first `maxLength` characters plus "...", length `maxLength`+3 |
| Display.ShortenTextIdempotent | frontend/src/services/rawline-service.ts:494-496 | shortening twice is shortening once, and what is kept is a prefix |
| Display.AppendedSpec | frontend/src/services/rawline-service.ts:139-145 | each step appends its parameter exactly when it holds a value, in step order |
| Display.SearchParamsNumbers | frontend/src/services/rawline-service.ts:140-143 | a numeric filter is sent exactly when present and not 0, as its decimal text |
| Display.SearchNumbersReadBack | frontend/src/services/rawline-service.ts:142 | a port sent reads back with `parseInt` as the number given |
| Display.SearchParamsTexts | frontend/src/services/rawline-service.ts:144-145 | a text filter is sent exactly when present and not empty |
| Display.SearchParamsOrdered | frontend/src/services/rawline-service.ts:139-145 | parameters come in the fixed order, each at most once, from the six names only |
| Display.SearchParams | frontend/src/services/rawline-service.ts:139-145 | at most the six parameters are sent, and never with an empty text |
| Display.RawlineEndpointCell | frontend/src/services/rawline-service.ts:51-54 | "Device <id>" or 'N/A', then ":<port>" only for a truthy port |
| Display.EventEndpoint | frontend/src/components/events.ts:115-118 | 'N/A' for a falsy device; a device object with a truthy id shows "Device <id>", a plain value "Device <value>"; then ":<port>" only for a truthy port |
| Display.SourceDestCell | frontend/src/components/events.ts:115-121 | "<source><:port> → <destination><:port>", each side as in the rawlines table but through `extractValue` |
| Display.EndpointCellsCompared | frontend/src/components/events.ts:115-121 | the two tables agree on a device with a truthy id and on a missing device, and differ on a bare number |
| Display.ModalEndpoint | frontend/src/components/events.ts:136-155 | 'N/A' without a device whatever the port; otherwise "Device ID: <id>" with ", Port: <port>" only for a truthy port |
| Display.NormalizeEvents | frontend/src/components/events.ts:11-38 | either "No events found" or a non-empty list of rows |
| Display.NormalizeEventsShapes | frontend/src/components/events.ts:11-38 | a list is read as itself, a wrapper as its first array among results/data/events, an object with an id as a one-element list, anything else as no events |
| Display.DashboardEvents | frontend/src/main.ts:249-258 | rows exactly for a non-empty list, and then one per event |
| Display.EventViewsCompared | frontend/src/main.ts:249-258 | the dashboard and the events view agree on lists and falsy data; on a wrapped list one shows rows and the other throws |
| Display.ClassifyByTable | frontend/src/main.ts:280-290 | the action is the label of the first keyword the line contains, in the priority blocked, connection, login, DNS, GET/POST |
| Display.ClassifyAction | frontend/src/main.ts:274-290 | the action is 'Unknown' or the label of a keyword the line contains, and "blocked" always wins |
| Display.ClassifyUnknown | frontend/src/main.ts:274-290 | 'Unknown' exactly when the line holds none of the keywords |
| Display.FirstKeywordUnknown | frontend/src/main.ts:274-290 | a first-match lookup answers 'Unknown' exactly when no keyword occurs |
| Display.QuadMatches | frontend/src/main.ts:293 | every match of the global pattern is a dotted quad, leftmost first |
| Display.Endpoints | frontend/src/main.ts:293-299 | the source is 'N/A' exactly when no dotted quad occurs, else the leftmost match; the destination is the match the search finds after the end of the first, and 'N/A' exactly when there is no such second match |
| Display.NotAvailableIsNoQuad | frontend/src/main.ts:294-299 | 'N/A' can never be mistaken for a found address |
| Display.DashboardRowOf | frontend/src/main.ts:264-299 | a null event throws; a missing raw line shows 'No raw line'; the message is the raw line unchanged |
| Badges.AlertStatusClass | frontend/src/services/alert-service.ts:133-146 | a falsy status is unknown; a truthy one that is not a string throws a TypeError |
| Badges.SeverityClass | frontend/src/services/alert-rule-service.ts:587-598 | the upper-cased switch gives high, medium or low exactly when the lower-cased severity is that word; anything else is unknown |
| Badges.RuleStatusClass | frontend/src/services/alert-rule-service.ts:605-616 | the upper-cased switch gives open, investigating or resolved exactly when the lower-cased status is that word |
| Badges.ReportSeverityClass | frontend/src/components/advanced.ts:626-639 | the lower-cased switch gives critical, high, medium or low exactly when the upper-cased severity is that word |
| Badges.SeverityClassKnown | frontend/src/services/alert-rule-service.ts:587-598 | the class is known exactly for high, medium and low in any mix of cases |
| Badges.ReportSeverityAgrees | frontend/src/components/advanced.ts:626-639 | the report badge agrees with the rule and threat badge on every severity but critical, which only it knows |
| Badges.StatusClassesAgree | frontend/src/services/alert-rule-service.ts:605-616 | the alert view's and the rule view's status badges agree on every string |
| Listings.MapRows | frontend/src/services/alert-rule-service.ts:50-68 | rows for every element in order exactly when none throws; otherwise the error of the first that does |
| Listings.FirstFailure | frontend/src/services/alert-rule-service.ts:50-68 | the position of the first element whose row throws |
| Listings.ListTable | frontend/src/services/threat-intell-service.ts:45-72 | a non-list throws; an empty list gives the one message row; otherwise one row per element, or the first row's error |
| RuleViews.RuleRowOf | frontend/src/services/alert-rule-service.ts:47-68 | a row shows Active exactly for a truthy `isactive`, and then a Deactivate button |
| RuleViews.RuleRowFallbacks | frontend/src/services/alert-rule-service.ts:50-53 | a bare rule shows 'Unnamed Rule', 'UNKNOWN' and Inactive; a numeric severity throws |
| RuleViews.RuleTable | frontend/src/services/alert-rule-service.ts:46-77 | a non-list throws; an empty list shows "No alert rules found"; otherwise one row per rule, Active exactly for a truthy `isactive`, or the error of a rule whose row throws |
| RuleViews.ToggledRule | frontend/src/services/alert-rule-service.ts:211 | an object takes `isactive = !isActive` and keeps every other property; a primitive throws |
| RuleViews.ToggleRuleStatus | frontend/src/services/alert-rule-service.ts:203-227 | the saved rule exactly when fetch, flip and save all succeed; a failed save carries the API error |
| RuleViews.ToggleFlipsRow | frontend/src/services/alert-rule-service.ts:203-227 | toggling with the shown flag shows the other status and keeps name and severity |
| RuleViews.FrequentRule | frontend/src/services/alert-rule-service.ts:135-141 | a tuple is read unless it is null or undefined |
| RuleViews.FrequentRules | frontend/src/services/alert-rule-service.ts:135-141 | a non-list throws; otherwise one rule per tuple |
| RuleViews.FrequentRulesPositional | frontend/src/services/alert-rule-service.ts:135-141 | positions 0, 1 and 2 become id, name and alertCount for every tuple |
| AlertViews.AlertRowOf | frontend/src/services/alert-service.ts:48-77 | a row exactly when the alert is present and its badge does not throw; a missing rule id shows 'Unknown' |
| AlertViews.AlertsTable | frontend/src/services/alert-service.ts:20-78 | the one "No alerts found" row exactly when the value's length is 0 |
| AlertViews.AlertsTableIsListTable | frontend/src/services/alert-service.ts:20-78 | on lists the alert table is the generic one; it also accepts an object of length 0 and the empty string |
| AlertViews.AlertsTableRows | frontend/src/services/alert-service.ts:41-46 | an empty list gives exactly one row; n alerts give n rows |
| AlertViews.StatusOptionsAreRefused | frontend/src/services/alert-service.ts:316-320 | the options are Open, Investigating and Resolved; the server's `valueOf` refuses each one and would accept its upper-case form |
| ThreatViews.ThreatRowOf | frontend/src/services/threat-intell-service.ts:46-63 | the badge class follows the severity; a missing severity or indicator shows its fallback |
| ThreatViews.ThreatFallbacks | frontend/src/services/threat-intell-service.ts:49-72 | a bare threat shows every fallback; an empty list shows "No threat intelligence found" |
| ThreatViews.ThreatTable | frontend/src/services/threat-intell-service.ts:45-72 | a non-list throws; an empty list shows "No threat intelligence found"; otherwise one row per threat, each badge following its severity and a falsy severity showing "Unknown" |
| IncidentViews.IncidentRowOf | frontend/src/services/incident-report-service.ts:46-63 | a row for any present report; 'None' exactly when the related alert id is falsy |
| IncidentViews.IncidentRowFallbacks | frontend/src/services/incident-report-service.ts:50-53 | a bare report shows 'Untitled Report', 'Unknown User', 'None'; alert 7 shows "Alert #7" |
| IncidentViews.IncidentTable | frontend/src/services/incident-report-service.ts:45-74 | a non-list throws; an empty list shows "No incident reports found"; a non-empty list succeeds exactly when no report is null or undefined, one row each, 'None' exactly for a falsy related alert id |
| IncidentViews.IdText | frontend/src/services/incident-report-service.ts:131 | `r.id.toString()` throws exactly for a null report or id |
| IncidentViews.FindFrom | frontend/src/services/incident-report-service.ts:131 | the first report whose id text matches, none when every id differs, or the first unreadable id's error |
| IncidentViews.FindFromFirst | frontend/src/services/incident-report-service.ts:131 | the search answers the first matching position once all before it differ |
| IncidentViews.GetReportById | frontend/src/services/incident-report-service.ts:125-142 | a found report is in the list with the id asked for; "Report with ID <id> not found" exactly when every id differs |
| IncidentViews.ReportFoundById | frontend/src/services/incident-report-service.ts:125-142 | a report with numeric id n is found by the text of n |
| IncidentViews.IntToStringInjective | frontend/src/services/incident-report-service.ts:131 | different numbers have different id texts |
| IncidentViews.LinkPayload | frontend/src/services/incident-report-service.ts:185-192 | the payload holds `parseInt` of each id under `incidentreportid.id` and `logeventid.id` |
| IncidentViews.LinkPayloadRoundTrip | frontend/src/services/incident-report-service.ts:185-192 | ids written as number texts read back as those numbers; text that is no number is sent as null |
| JsValues.ParseIntOfText | frontend/src/services/incident-report-service.ts:186-191 | `parseInt(String(n))` is n |
| JsValues.ParseIntNaN | frontend/src/services/incident-report-service.ts:186-191 | text without a digit is NaN |
| JsValues.ParseIntSkipsSpace | frontend/src/services/incident-report-service.ts:186-191 | a white-space character in front of any text leaves `parseInt` unchanged |
| JsValues.ParseIntStopsAtLetter | frontend/src/services/incident-report-service.ts:186-191 | decimal digits followed by a non-digit read as the digits' value, except a lone 0 before `x`, which starts the hex prefix |
| JsValues.ParseIntHexPrefix | frontend/src/services/incident-report-service.ts:186-191 | `0x` followed by hexadecimal digits reads as their base-16 value |
| JsValues.SetProp | frontend/src/services/alert-rule-service.ts:211 | the assigned property takes the value and every other keeps its own |
| JsValues.Stringify | frontend/src/utils/helpers.ts:14 | `JSON.stringify` has no text for undefined and brackets for lists and objects |
| AdvancedReports.ReportParamFor | frontend/src/components/advanced.ts:83-114 | an input exactly for the three parametrised reports |
| AdvancedReports.GenerateReport | frontend/src/components/advanced.ts:116-179 | "Invalid report type selected" exactly for a selection not in the list |
| AdvancedReports.ParametrisedAgree | frontend/src/components/advanced.ts:83-179 | exactly the reports that show an input send a parameter |
| AdvancedReports.ReportDefaultsAgree | frontend/src/components/advanced.ts:153-172 | a missing, empty or untouched input asks for 5, 3 or 1, the value the input starts with |
| AdvancedReports.ReportParameterReadBack | frontend/src/components/advanced.ts:153-172 | a number typed in is the number requested |
| AdvancedReports.InputOr | frontend/src/components/advanced.ts:153-172 | the fallback exactly for a missing or empty input, or one holding the fallback |
| AdvancedReports.EmptyTestsAgree | frontend/src/components/advanced.ts:193-196 | the empty-data test holds exactly when the dashboard shows "No events found" |
| AdvancedReports.RelatedRowOf | frontend/src/components/advanced.ts:596-612 | a row for any present report, "Yes" exactly when it is directly related |
| AdvancedReports.RelatedReportsView | frontend/src/components/advanced.ts:567-622 | the empty message exactly for empty data; otherwise one row per report, "Yes" exactly for the directly related |
| AdvancedReports.DirectlyRelatedExamples | frontend/src/components/advanced.ts:603 | strict equality: alert 1 relates to 1, not to 2, not to NaN, and not to the string "1" |

## Left out

- HTTP itself: `fetch`, headers, JSON encoding on the wire and the callers in `users.ts` are not modelled; a reply is an input (`Api.Fetched`), and only its status, status text and body count.
- The DOM: `innerHTML` templates, listeners, modals, tabs and alerts are not modelled; a table is its list of row values, which stands for the HTML the `forEach` loops accumulate.
- Dates: `new Date(...)`, `toLocaleString` and `Instant.now()` are not modelled; the timestamp of a line and the current time are the `stamp` and `now` parameters, and `extractTimestampFromLine` is not modelled.
- Address resolution: `InetAddress.getByName` is the `resolve` parameter; its `UnknownHostException` branch is the `None` case.
- Numbers in the front end are integers: floats, NaN beyond `parseInt`, Infinity and `toString` of non-integers are not modelled.
- Strings are sequences of characters: UTF-16 lengths, Unicode case mapping and Unicode white space beyond the listed characters are not modelled.
- Display.ShortenText: measures length in characters, not UTF-16 code units.
- List order from the database: queries answer sets; the order of rows the repositories return is not modelled.
- Database cascades: `ON DELETE CASCADE` and `SET NULL` of the schema and column lengths are not modelled.
- Transactions: `@Transactional` boundaries, rollback-only marking and `CompletableFuture.runAsync` are not modelled; `processLogfileContent` is modelled as if each save took effect at once.
- Password hashing: `BCrypt.checkpw` is the `checkpw` parameter of `UserService`.
- Gson and Jackson: the JSON round trip of parsed data is the identity on string maps.
- Framework conversion of request bodies to enums is not modelled beyond `valueOf`.
- LogfileServices.LogfileService.ParseLogLine: the raw line is a value that the method returns, not a shared object updated in place.
- EventControllers.EventController.CreateLogfile: requires a file without an id or with the id of a stored file; a body carrying an id that no stored file has is left out, as what JPA's `merge` then saves depends on the persistence provider.
- EventControllers.EventController.CreateAction: referential integrity is not modelled; a category name that no category row has is stored as it is, where the database refuses the `@ManyToOne` reference at flush and the request ends in a server error.
- EventControllers.EventController.UpdateAction: referential integrity is not modelled; a new category that no row has is stored as it is, where the database refuses it and the request ends in a server error.
- EventControllers.EventController.UpdateEvent: referential integrity is not modelled; a `fileid`, `rawline` or `associatedalertid` that no row has is stored as it is, where the database refuses it and the request ends in a server error.
- Users.UserController.CreateUser: the request body is a map of strings, so the `ClassCastException` of a `(String)` cast on a non-string JSON value, which the catch answers with BadRequest, is not modelled.
- Sessions.DashboardPage.SubmitRegister: models the handler's shown dashboard, not the sign-up request, which belongs to `users.ts`.
- RuleViews.FrequentRules: the display of the frequent rules after they are built is DOM work and not modelled.
- The repositories' native queries (full-text ranking, JSON operators, grouping) and the pass-through services are not modelled.

## Findings

| source | as written | input that shows it | evidently intended | confidence | as-written member | corrected member |
|---|---|---|---|---|---|---|
| siem/src/main/java/edu/trincoll/siem/Controller/UserController.java:134 | `updateUser` saves the request body, whose `passwordHash` is null, into a NOT NULL column | any update of a stored user with a body carrying id, email and username | keep the stored hash and creation time and copy the profile fields | not executed | Users.UpdateAsWrittenFails | Users.UpdatedRowSucceeds |
| siem/src/main/java/edu/trincoll/siem/Controller/IncidentController.java:105-123 | the derived `deleteBy...` queries run without a transaction, so they throw once there is a link to remove | deleting the links of a report that has one link | remove exactly the links of that report or event | not executed | Incidents.DeleteLinksAsWrittenFails | Incidents.DeleteLinksOfReport |
