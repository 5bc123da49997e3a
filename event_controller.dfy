/** The handlers of server/controllers/eventController.js. `principal` is the id the
    authentication middleware puts in `req.user.id`; `body` is `req.body`; `parse` is `new Date`. */
module EventController {
  import opened Common
  import opened EventSchema
  import opened EventStore
  import opened Http
  import opened Pagination

  /** `getAllEvents`: page `page` (default 1) of `limit` records (default 10) in date order,
      with the page count and the record count. */
  function GetAllEvents(t: Table, bound: nat, q: Query): (r: Listing)
    requires Bounded(t, bound) && NonNegative(q)
    ensures var page, limit := OrElse(q.page, 1), OrElse(q.limit, 10);
      && page >= 1 && limit >= 1
      && r.currentPage == page
      && r.totalEvents == |t|
      && r.totalPages >= 0 && FewestPages(r.totalPages, |t|, limit)
      && IsPage(r.events, ByDate(t, bound), Skip(page, limit), limit)
  {
    var page, limit := OrElse(q.page, 1), OrElse(q.limit, 10);
    var events := PageOf(ByDate(t, bound), Skip(page, limit), limit);
    var pages := CeilDiv(|t|, limit);
    Listing(events, page, pages, |t|)
  }

  /** The page holds at most `limit` records, in date order. */
  lemma ListingDateOrdered(t: Table, bound: nat, q: Query)
    requires Bounded(t, bound) && NonNegative(q)
    ensures |GetAllEvents(t, bound, q).events| <= OrElse(q.limit, 10)
    ensures DateOrdered(GetAllEvents(t, bound, q).events)
  {
    var page, limit := OrElse(q.page, 1), OrElse(q.limit, 10);
    var sorted := ByDate(t, bound);
    PageDateOrdered(sorted, Skip(page, limit), limit);
    assert GetAllEvents(t, bound, q).events == PageOf(sorted, Skip(page, limit), limit);
  }

  /** Every listed event is a stored record under its own identifier. */
  lemma ListedAreStored(t: Table, bound: nat, q: Query)
    requires Bounded(t, bound) && NonNegative(q)
    ensures forall e :: e in GetAllEvents(t, bound, q).events ==> e.id in t && t[e.id] == e.event
  {
    var r := GetAllEvents(t, bound, q);
    var sorted := ByDate(t, bound);
    ByDateHoldsTable(t, bound);
    forall e | e in r.events ensures e.id in t && t[e.id] == e.event {
      var k :| 0 <= k < |r.events| && r.events[k] == e;
      assert e == sorted[Skip(OrElse(q.page, 1), OrElse(q.limit, 10)) + k];
    }
  }

  /** Every record appears exactly where the page arithmetic puts it: the record at position
      `i` of the date order is entry `i % limit` of page `i / limit + 1`, a page the listing
      counts; a page past the last one is empty. */
  lemma ListingPagesCover(t: Table, bound: nat, limit: nat, i: nat)
    requires Bounded(t, bound) && limit > 0 && i < |t|
    ensures var q := Query(Some(i / limit + 1), Some(limit));
      var r := GetAllEvents(t, bound, q);
      && r.currentPage <= r.totalPages
      && i % limit < |r.events|
      && r.events[i % limit] == ByDate(t, bound)[i]
  {
    PageHolds(ByDate(t, bound), limit, i);
  }

  lemma ListingPastLastPage(t: Table, bound: nat, q: Query)
    requires Bounded(t, bound) && NonNegative(q)
    requires GetAllEvents(t, bound, q).currentPage > GetAllEvents(t, bound, q).totalPages
    ensures GetAllEvents(t, bound, q).events == []
  {
    var page, limit := OrElse(q.page, 1), OrElse(q.limit, 10);
    var sorted := ByDate(t, bound);
    assert GetAllEvents(t, bound, q) == Listing(PageOf(sorted, Skip(page, limit), limit), page, CeilDiv(|t|, limit), |t|);
    PastLastPageEmpty(sorted, limit, page);
  }

  /** `getEventById`: the stored record, or 404. */
  function GetEventById(t: Table, id: EventId): (r: Response)
    ensures r.Status() == 404 <==> id !in t
    ensures r.Status() == 200 <==> id in t
    ensures id in t ==> r == Ok(id, t[id])
  {
    if id in t then Ok(id, t[id]) else NotFound
  }

  /** The test at lines 53 and 92: every one of the five members is truthy. */
  predicate AllGiven(p: Payload) {
    Truthy(p.title) && Truthy(p.description) && Truthy(p.date) && Truthy(p.location) && Truthy(p.organizerName)
  }

  /** The document `createEvent` builds: the five members through their setters, the date
      through `new Date`, the principal as organizer. */
  function CreateDraft(p: Payload, principal: UserId, parse: DateParser): Draft
    requires AllGiven(p)
  {
    Assign(p.title.value, p.description.value, NewDate(p.date.value, parse), p.location.value,
           p.organizerName.value, Some(principal))
  }

  /** The fetched document after `updateEvent` assigned the five members; the organizer stays. */
  function UpdateDraft(e: Event, p: Payload, parse: DateParser): Draft
    requires AllGiven(p)
  {
    Assign(p.title.value, p.description.value, NewDate(p.date.value, parse), p.location.value,
           p.organizerName.value, Some(e.organizer))
  }

  /** Once the five members are truthy, `save()` accepts a created event exactly when no string
      member is all whitespace and the date parses; the record it stores then holds the trimmed
      members, the parsed date and the principal as organizer. */
  lemma CreateAccepted(p: Payload, principal: UserId, parse: DateParser)
    requires AllGiven(p)
    ensures var d := CreateDraft(p, principal, parse);
      && (SchemaValid(d) <==>
          && !AllWhitespace(p.title.value) && !AllWhitespace(p.description.value)
          && parse(p.date.value).Some?
          && !AllWhitespace(p.location.value) && !AllWhitespace(p.organizerName.value))
      && (SchemaValid(d) ==>
          var e := ToEvent(d);
          && e.organizer == principal
          && e.title == Trim(p.title.value) && e.description == Trim(p.description.value)
          && e.date == parse(p.date.value).value
          && e.location == Trim(p.location.value) && e.organizerName == Trim(p.organizerName.value)
          && ValidRecord(e))
  {
  }

  /** The same for an update, which keeps the record's organizer. */
  lemma UpdateAccepted(e: Event, p: Payload, parse: DateParser)
    requires AllGiven(p)
    ensures var d := UpdateDraft(e, p, parse);
      && (SchemaValid(d) <==>
          && !AllWhitespace(p.title.value) && !AllWhitespace(p.description.value)
          && parse(p.date.value).Some?
          && !AllWhitespace(p.location.value) && !AllWhitespace(p.organizerName.value))
      && (SchemaValid(d) ==>
          var u := ToEvent(d);
          && u.organizer == e.organizer
          && u.title == Trim(p.title.value) && u.description == Trim(p.description.value)
          && u.date == parse(p.date.value).value
          && u.location == Trim(p.location.value) && u.organizerName == Trim(p.organizerName.value)
          && ValidRecord(u))
  {
  }

  /** `createEvent`: 400 with the members as given when one is falsy; otherwise a new document
      is saved: 201 with the stored record, or 400 with one message per schema violation. */
  method CreateEvent(store: EventCollection, principal: UserId, body: Body, parse: DateParser)
    returns (r: Response)
    requires store.Valid()
    modifies store
    ensures store.Valid()
    ensures !AllGiven(PayloadOf(body)) ==>
      r == MissingRequiredFields(PayloadOf(body)) && store.records == old(store.records)
    ensures AllGiven(PayloadOf(body)) ==>
      var d := CreateDraft(PayloadOf(body), principal, parse);
      && (!SchemaValid(d) ==> r == SchemaRejected(Messages(Violations(d))) && store.records == old(store.records))
      && (SchemaValid(d) ==>
          && r.Created? && r.event == ToEvent(d) && r.id !in old(store.records)
          && store.records == old(store.records)[r.id := r.event])
    ensures r.Created? ==> r.event.organizer == principal && ValidRecord(r.event)
    ensures AllValid(old(store.records)) ==> AllValid(store.records)
  {
    var p := PayloadOf(body);
    if !AllGiven(p) {
      return MissingRequiredFields(p);
    }
    var doc := store.NewDocument(CreateDraft(p, principal, parse));
    var saved := store.Save(doc);
    match saved
    case Saved(e) =>
      r := Created(doc.id, e);
    case Rejected(vs) =>
      r := SchemaRejected(Messages(vs));
  }

  /** `updateEvent`: 400 when a member is falsy, then 404 when there is no such record, then 403
      when the principal is not its organizer, all without a change; otherwise the five members
      are assigned to the fetched document and it is saved: 200 with the record, or 400 with
      one message per schema violation. Nobody else's record changes, and the owner stays. */
  method UpdateEvent(store: EventCollection, principal: UserId, id: EventId, body: Body, parse: DateParser)
    returns (r: Response)
    requires store.Valid()
    modifies store
    ensures store.Valid()
    ensures !AllGiven(PayloadOf(body)) ==>
      r == MissingRequiredFields(PayloadOf(body)) && store.records == old(store.records)
    ensures AllGiven(PayloadOf(body)) && id !in old(store.records) ==>
      r == NotFound && store.records == old(store.records)
    ensures AllGiven(PayloadOf(body)) && id in old(store.records) && old(store.records)[id].organizer != principal ==>
      r == Forbidden && store.records == old(store.records)
    ensures AllGiven(PayloadOf(body)) && id in old(store.records) && old(store.records)[id].organizer == principal ==>
      var d := UpdateDraft(old(store.records)[id], PayloadOf(body), parse);
      && (SchemaValid(d) ==> r == Ok(id, ToEvent(d)) && store.records == old(store.records)[id := r.event])
      && (!SchemaValid(d) ==> r == SchemaRejected(Messages(Violations(d))) && store.records == old(store.records))
    ensures r.Ok? ==> r.event.organizer == principal && ValidRecord(r.event)
    ensures OthersUntouched(old(store.records), store.records, principal)
    ensures store.records.Keys == old(store.records).Keys
    ensures AllValid(old(store.records)) ==> AllValid(store.records)
  {
    var p := PayloadOf(body);
    if !AllGiven(p) {
      return MissingRequiredFields(p);
    }
    var doc := store.FindById(id);
    if doc == null {
      return NotFound;
    }
    if doc.organizer != Some(principal) {
      return Forbidden;
    }
    // Each assignment goes through the path's setter, which trims the four string paths.
    doc.title := Trim(p.title.value);
    doc.description := Trim(p.description.value);
    doc.date := NewDate(p.date.value, parse);
    doc.location := Trim(p.location.value);
    doc.organizerName := Trim(p.organizerName.value);
    assert doc.Snapshot() == UpdateDraft(store.records[id], p, parse);
    ghost var d := doc.Snapshot();
    OwnChangeLeavesOthers(store.records, id, principal, if SchemaValid(d) then ToEvent(d) else store.records[id]);
    var saved := store.Save(doc);
    match saved
    case Saved(e) =>
      r := Ok(id, e);
    case Rejected(vs) =>
      r := SchemaRejected(Messages(vs));
  }

  /** `deleteEvent`: 404 when there is no such record, 403 when the principal is not its
      organizer, both without a change; otherwise that record, and only it, is removed. */
  method DeleteEvent(store: EventCollection, principal: UserId, id: EventId) returns (r: Response)
    requires store.Valid()
    modifies store
    ensures store.Valid()
    ensures id !in old(store.records) ==> r == NotFound && store.records == old(store.records)
    ensures id in old(store.records) && old(store.records)[id].organizer != principal ==>
      r == Forbidden && store.records == old(store.records)
    ensures id in old(store.records) && old(store.records)[id].organizer == principal ==>
      r == DeleteConfirmed && store.records == old(store.records) - {id}
    ensures OthersUntouched(old(store.records), store.records, principal)
    ensures AllValid(old(store.records)) ==> AllValid(store.records)
  {
    var doc := store.FindById(id);
    if doc == null {
      return NotFound;
    }
    if doc.organizer != Some(principal) {
      return Forbidden;
    }
    OwnChangeLeavesOthers(store.records, id, principal, store.records[id]);
    store.Remove(doc.id);
    r := DeleteConfirmed;
  }
}
