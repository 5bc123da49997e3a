# Event management API: events model and handlers

This project models the server core of a small event-management application built on
Express and Mongoose:

- the `Event` schema (server/models/Event.js): six required paths, four of them strings
  trimmed by their setters, a `date` validated as a real instant, and the organizer's user id;
- the controller handlers (server/controllers/eventController.js): the paginated listing,
  fetch by id, create, update and delete, with the ownership checks;
- the route handlers (server/routes/events.js), which implement the same API a second way.
  Here an express-validator chain checks and trims the body first. Create spreads the body
  into a new document, and update sends the body as a `$set` through `findByIdAndUpdate`.

The `events` collection is a class (`EventStore.EventCollection`) holding a map from
identifier to stored record. Handlers that change it are methods that say what the map
becomes. The read-only handlers are functions over the map. A document loaded or built
by a handler is a class (`EventStore.EventDocument`) whose paths the controller's update
assigns one by one before `save()`.

Modules:

- `Common`: `Option`, and `String.prototype.trim` over JavaScript's whitespace set.
- `EventSchema`: paths, drafts, stored records, the schema rules and their violations.
- `EventStore`: the collection and the document classes, and `save`, `findById`,
  `findByIdAndUpdate` and delete.
- `Http`: request bodies, the date parser parameter and responses with their status codes.
- `Pagination`: the date-ordered listing query and the page arithmetic.
- `EventController`: the handlers of eventController.js.
- `EventRoutes`: the handlers of routes/events.js.

## Model

| member | source | states |
|---|---|---|
| Common.Trim | server/models/Event.js:7 | the trimming setter removes whitespace from both ends only; the result is never longer; it neither starts nor ends with whitespace; it is empty exactly when the input is all whitespace |
| Common.TrimKeepsMiddle | server/models/Event.js:7 | the trimmed value is the contiguous part of the input after its leading whitespace, and only whitespace follows it in the input |
| Common.TrimIdempotent | server/models/Event.js:7 | trimming twice gives the same value as trimming once |
| EventSchema.Assign | server/models/Event.js:3-38 | assigning the paths runs the trimming setters: each string path is filled exactly when the given value is not all whitespace; the date and the organizer are stored as given |
| EventSchema.Check | server/models/Event.js:4-38 | one path's rule yields no violation when it holds and exactly one violation of that path otherwise: an unset date gives the "Date is required" violation, an invalid date the validator's "Invalid date format" violation, and any other failing path its "required" violation |
| EventSchema.Collect | server/models/Event.js:3-38 | running the rules of a list of paths reports a path exactly when it is listed and its rule fails, and each reported path carries the violation its own rule gives (so an unset date is "required" and an invalid one the validator's failure) |
| EventSchema.CollectOncePerPath | server/models/Event.js:3-38 | over a list of distinct paths, no path is reported twice |
| EventSchema.SchemaValid | server/models/Event.js:3-38 | defines the drafts the schema accepts: all four strings non-empty, the date a valid instant, the organizer set |
| EventSchema.SchemaValidEveryRule | server/models/Event.js:3-38 | the schema accepts a draft exactly when the rule of every one of its paths holds |
| EventSchema.Message | server/models/Event.js:6-31 | defines the message of each violation: the `required` message each path declares, Mongoose's default for the organizer, and the date validator's message |
| EventSchema.Violations | server/models/Event.js:3-38 | `save()` reports no violation exactly when all six required rules hold |
| EventSchema.ViolationsReportEachFailedRule | server/models/Event.js:3-38 | `save()` reports a path exactly when that path's rule fails, reports each path at most once, and reports for each the violation its own rule gives |
| EventSchema.InvalidDateMessage | server/models/Event.js:14-23 | a document whose only fault is a date that is not a valid instant draws exactly one message, 'Invalid date format', and not 'Date is required' |
| EventSchema.Messages | server/controllers/eventController.js:74-78 | the 400 response holds one message per violation, in order, each the message the schema declares for it |
| EventSchema.ToEvent | server/models/Event.js:3-38 | an accepted draft becomes a stored record that loads back to the same draft and passes the schema as it stands |
| EventSchema.SavedRecordNormal | server/models/Event.js:4-38 | a record saved from assigned values holds each string trimmed and non-empty, the assigned instant and the assigned organizer; saving the loaded record again stores the same record |
| EventStore.OwnChangeLeavesOthers | server/controllers/eventController.js:140-145 | replacing or removing a record whose organizer is the principal leaves every other user's records present and unchanged; a replacement keeps the set of identifiers |
| EventStore.EventDocument.constructor | server/controllers/eventController.js:60-67 | a new document holds exactly the paths it was built with, under its identifier |
| EventStore.EventCollection.constructor | server/models/Event.js:46 | the collection starts empty, with no identifier in use |
| EventStore.EventCollection.NewDocument | server/controllers/eventController.js:60-67 | `new Event(...)` gives a fresh document under an identifier not in use and stores nothing |
| EventStore.EventCollection.FindById | server/controllers/eventController.js:99-103 | `findById` gives no document exactly when there is no record with that id, and otherwise a fresh document holding that record |
| EventStore.EventCollection.Save | server/controllers/eventController.js:69 | `save()` stores the record under the document's id exactly when the schema accepts it, and otherwise reports the violations and stores nothing; it keeps every stored record schema-valid |
| EventStore.EventCollection.FindByIdAndUpdate | server/routes/events.js:93-97 | `findByIdAndUpdate` applies the `$set` to the record without running validators and returns the updated record, or returns nothing and changes nothing when there is no record |
| EventStore.EventCollection.Remove | server/controllers/eventController.js:145 | the record with that id is gone and nothing else changes; every remaining record stays schema-valid |
| Http.Get | server/controllers/eventController.js:50 | defines reading a body member: `undefined` when the member is absent, its value otherwise |
| Http.Truthy | server/controllers/eventController.js:53 | defines JavaScript truthiness of a member: present and not the empty string |
| Http.PayloadOf | server/controllers/eventController.js:50 | defines the destructuring of the five members the controller reads from the body |
| Http.NewDate | server/controllers/eventController.js:63 | `new Date(s)` is a valid instant exactly when the parser accepts `s`, and that instant; otherwise it is `Invalid Date`, never an unset date |
| Pagination.OrElse | server/controllers/eventController.js:6-7 | defines `parseInt(x) or default`: the parsed number, unless it is missing (NaN) or 0, which are falsy and give the default |
| Pagination.Skip | server/controllers/eventController.js:8 | defines the number of records the pages before the requested one hold, `(page - 1) * limit` |
| Pagination.CeilDiv | server/controllers/eventController.js:17 | `Math.ceil(total / limit)` is the fewest pages of `limit` records that hold all `total` records |
| Pagination.EntriesBelow | server/controllers/eventController.js:10 | the scan of the collection lists exactly the stored records, each with its own id |
| Pagination.EntriesBelowCount | server/controllers/eventController.js:10 | the scan lists each stored record once |
| Pagination.InsertByDate | server/controllers/eventController.js:12 | inserting into a date-ordered list keeps it date-ordered and adds exactly that entry |
| Pagination.SortByDate | server/controllers/eventController.js:12 | `sort({ date: 1 })` returns a date-ordered permutation of its input |
| Pagination.ByDate | server/controllers/eventController.js:10-12 | the sorted query returns as many entries as there are records, in date order |
| Pagination.ByDateHoldsTable | server/controllers/eventController.js:10-12 | the sorted query lists an entry exactly when it is a stored record under its own id |
| Pagination.PageOf | server/controllers/eventController.js:13-14 | `.skip(skip).limit(limit)` returns the entries from position `skip` onwards, at most `limit` of them and as many as remain up to that |
| Pagination.PageDateOrdered | server/controllers/eventController.js:12-14 | a page of a date-ordered list is date-ordered |
| Pagination.PageHolds | server/controllers/eventController.js:8-17 | the entry at position i lies at position i % limit of page i / limit + 1, and that page is no later than the page count |
| Pagination.PastLastPageEmpty | server/controllers/eventController.js:8-17 | a page after the page count is empty |
| EventController.GetAllEvents | server/controllers/eventController.js:4-24 | the listing uses page and limit of at least 1, reports the requested page and the record count, counts the fewest pages that hold every record, and returns exactly that page of the date-ordered records |
| EventController.ListingDateOrdered | server/controllers/eventController.js:12-14 | a listed page holds at most `limit` events, in date order |
| EventController.ListedAreStored | server/controllers/eventController.js:10-14 | every listed event is a stored record under its own id |
| EventController.ListingPagesCover | server/controllers/eventController.js:6-24 | with ties in date broken by identifier, every record is listed on the page the arithmetic predicts, at the position it predicts, and that page is within the reported page count |
| EventController.ListingPastLastPage | server/controllers/eventController.js:6-24 | asking for a page beyond the reported page count lists no events |
| EventController.GetEventById | server/controllers/eventController.js:32-38 | 404 exactly when there is no record with that id; otherwise 200 with that record |
| EventController.AllGiven | server/controllers/eventController.js:53 | defines the controller's presence test: all five members truthy |
| EventController.CreateDraft | server/controllers/eventController.js:60-67 | defines the document `createEvent` builds: the five members through their setters, `new Date` of the date, the principal as organizer |
| EventController.UpdateDraft | server/controllers/eventController.js:110-114 | defines the fetched document after `updateEvent` assigns the five members through their setters; the organizer is kept |
| EventController.CreateAccepted | server/controllers/eventController.js:60-71 | once the five members are present, the schema accepts a created event exactly when no string is all whitespace and the date parses; the stored record holds the trimmed values, the parsed date and the principal as organizer |
| EventController.UpdateAccepted | server/controllers/eventController.js:110-116 | the same for an update, which keeps the record's organizer |
| EventController.CreateEvent | server/controllers/eventController.js:46-82 | 400 with the given members when one is falsy; otherwise 201 with a new record under a fresh id when the schema accepts the document, or 400 with one message per violation and no change; the organizer is the principal; stored records stay schema-valid |
| EventController.UpdateEvent | server/controllers/eventController.js:85-129 | 400, then 404, then 403, each without a change; for the owner, 200 with the record holding the new values when the schema accepts them, or 400 with the messages and no change; other users' records and the set of ids never change; the owner stays the organizer |
| EventController.DeleteEvent | server/controllers/eventController.js:132-151 | 404 or 403 without a change; for the owner, exactly that record is removed; other users' records stay |
| EventRoutes.ValueOr | server/routes/events.js:8-13 | defines how the validator reads a member: a missing one as the empty string |
| EventRoutes.RuleFails | server/routes/events.js:8-13 | defines when the rule of a path fails: title, description or location empty once trimmed, the date not ISO 8601; no other path has a rule |
| EventRoutes.Failing | server/routes/events.js:8-13 | a path's rule is reported exactly when it is among the checked paths and fails; over distinct paths there are no duplicates and the report keeps the order of the paths |
| EventRoutes.ValidationErrors | server/routes/events.js:8-13 | title, description and location are reported exactly when all whitespace or missing, and the date exactly when it fails the ISO 8601 test; `organizerName` and `organizer` are never checked; no rule is reported twice; the failures come in chain order (title, description, date, location); the result is empty exactly when all four pass |
| EventRoutes.Sanitize | server/routes/events.js:9-12 | the `trim()` sanitizers write the trimmed title, description and location back into the body and leave every other member as it was |
| EventRoutes.RouteDraft | server/routes/events.js:62-65 | defines the document the create route builds: each schema path the body holds through its setter, the others unset, the principal as organizer |
| EventRoutes.RouteDraftIgnoresBodyOrganizer | server/routes/events.js:62-65 | the created document's organizer is the principal whatever `organizer` member the body holds |
| EventStore.Patched | server/routes/events.js:93-97 | defines applying a `$set`: every path it names takes the new value, the others keep theirs |
| EventRoutes.CastUpdate | server/routes/events.js:93-97 | defines the cast of the body into a `$set`: each schema path the body holds, the strings through their trimming setters, the organizer as given; the cast fails exactly when the date does not parse |
| EventRoutes.ListEvents | server/routes/events.js:16-35 | the route listing returns the same as the controller's listing |
| EventRoutes.GetEventById | server/routes/events.js:42-48 | the route fetch returns the same as the controller's fetch |
| EventRoutes.CreateEvent | server/routes/events.js:55-73 | 400 with the failed rules and no change; otherwise 201 with the sanitized body stored under a fresh id with the principal as organizer when the schema accepts it, or 500 with no change; stored records stay schema-valid |
| EventRoutes.UpdateEvent | server/routes/events.js:76-103 | 400, then 404, then 403, each without a change; for the owner, 500 with no change when the date does not cast, otherwise 200 with the record patched by the `$set`; other users' records and the set of ids never change |
| EventRoutes.DeleteEvent | server/routes/events.js:106-123 | 404 or 403 without a change; for the owner, exactly that record is removed; other users' records stay |
| EventRoutes.UpdateReassignsOrganizer | server/routes/events.js:93-97 | as written, a body naming another organizer hands the record to that user id |
| EventRoutes.UpdateCanStoreInvalidRecord | server/routes/events.js:8-13 | a body that passes the validation but holds a blank `organizerName` is stored by an update as a record the schema refuses |
| EventRoutes.OwnerPatch | server/routes/events.js:93-97 | the corrected `$set` fails exactly when the as-written cast fails, and never names the organizer |
| EventRoutes.OwnerPatchKeepsOrganizer | server/routes/events.js:93-97 | with the corrected `$set`, an update keeps the record's organizer and changes every other path as the as-written update does |

## Left out

- Populating `organizer` with the user's `username` (`populate('organizer', 'username')`). Responses carry the stored user id instead.
- The authentication middleware: the principal (`req.user.id`) is a parameter of each protected handler. The 401 responses of server/middleware/auth.js are not part of this model.
- ObjectId syntax. Identifiers are natural numbers handed out in increasing order. The `CastError` a malformed id causes (a 500 from the generic catch) is not modelled, and neither is the cast of an `organizer` member that is not a valid ObjectId in the routes' update.
- Body members that are not strings, and members that name no schema path. Strict mode drops the latter.
- `_id`, `createdAt` and `updatedAt` (`timestamps: true`). The text index on title, description and location is used by no handler.
- Concurrency between requests, and the 500 paths for database failures other than the ones modelled above.
- Date parsing and the ISO 8601 test are parameters with no assumed behaviour.
- The console logging of the controller.
- EventSchema.Message: the message for a missing `organizer` follows Mongoose's default wording. Mongoose reports a `Date` cast failure through its own cast message rather than 'Invalid date format'; the model uses the validator's message for both.
- EventSchema.Violations: the violations come in schema declaration order. Mongoose's own order of `error.errors` is not modelled beyond that.
- EventStore.EventCollection.Remove: `event.remove()` (controller) and `event.deleteOne()` (routes) are both a removal by id. The removal of `remove()` in recent Mongoose versions, which would make the controller's delete a 500, is not modelled.
- EventController.GetAllEvents: requires page and limit, when given, to be non-negative. A negative skip or limit is passed to MongoDB, and MongoDB's handling of it is not modelled.
- EventRoutes.ListEvents: the same restriction as EventController.GetAllEvents.
- Pagination.SortByDate: records with equal dates keep identifier order. MongoDB does not promise any order among ties.
- EventController.ListingPagesCover: holds for the model's fixed tie order only. In the source, records with equal dates on both sides of a page boundary can come back in a different order for each page's query, so such a record can be listed on two pages or on none.
- The 500 responses of the controller's create and update other than a `ValidationError` are not modelled.

## Findings

| source | as written | input that shows it | evidently intended | confidence | as-written member | corrected member |
|---|---|---|---|---|---|---|
| server/routes/events.js:93-97 | the update spreads the whole body into the `$set`, so an `organizer` member reassigns the record | owner `u` sends PUT with a valid body plus `organizer: v` for any `v != u`; the record's organizer becomes `v`, and `u` gets 403 from then on | the organizer stays as it was, as the create route ensures by setting it after the spread (lines 62-65) and the controller's update by never assigning it | not executed | EventRoutes.UpdateReassignsOrganizer | EventRoutes.OwnerPatchKeepsOrganizer |
