/** The handlers of server/routes/events.js, the route-level variant of the controller. The
    create and update routes run `eventValidation` first; `isIso` is its ISO 8601 test and
    `parse` is the cast of a date string to an instant. */
module EventRoutes {
  import opened Common
  import opened EventSchema
  import opened EventStore
  import opened Http
  import opened Pagination
  import EventController

  /** A validated member as the validator reads it: a missing member reads as the empty string. */
  function ValueOr(body: Body, key: Field): (v: string)
    ensures key in body ==> v == body[key]
    ensures key !in body ==> v == ""
  {
    if key in body then body[key] else ""
  }

  /** The paths `eventValidation` checks, in declaration order. */
  const Validated: seq<Field> := [Title, Description, Date, Location]

  /** The rule `eventValidation` declares for path `f` fails: title, description and location
      must be non-empty once trimmed and the date must pass the ISO 8601 test; no other path is
      checked. */
  predicate RuleFails(body: Body, isIso: string -> bool, f: Field) {
    match f
    case Title => Trim(ValueOr(body, Title)) == ""
    case Description => Trim(ValueOr(body, Description)) == ""
    case Date => !isIso(ValueOr(body, Date))
    case Location => Trim(ValueOr(body, Location)) == ""
    case _ => false
  }

  /** `r` is `fs` with some of its elements left out, the rest kept in their order. */
  predicate SubsequenceOf(r: seq<Field>, fs: seq<Field>) {
    if r == [] then true
    else if fs == [] then false
    else if r[0] == fs[0] then SubsequenceOf(r[1..], fs[1..])
    else SubsequenceOf(r, fs[1..])
  }

  /** The paths of `fs` whose rule fails, in the order of `fs`. */
  function Failing(body: Body, isIso: string -> bool, fs: seq<Field>): (r: seq<Field>)
    ensures forall f :: f in r <==> f in fs && RuleFails(body, isIso, f)
    ensures r == [] <==> forall i :: 0 <= i < |fs| ==> !RuleFails(body, isIso, fs[i])
    ensures Distinct(fs) ==> Distinct(r) && SubsequenceOf(r, fs)
  {
    if fs == [] then []
    else
      var tail := Failing(body, isIso, fs[1..]);
      assert Distinct(fs) ==> fs[0] !in fs[1..];
      if RuleFails(body, isIso, fs[0]) then
        assert ([fs[0]] + tail)[1..] == tail;
        [fs[0]] + tail
      else
        tail
  }

  /** `validationResult(req)`: the failed rules, in declaration order, each once. A path is
      reported exactly when its rule fails; `organizerName` is never reported. */
  function ValidationErrors(body: Body, isIso: string -> bool): (fs: seq<Field>)
    ensures Title in fs <==> AllWhitespace(ValueOr(body, Title))
    ensures Description in fs <==> AllWhitespace(ValueOr(body, Description))
    ensures Date in fs <==> !isIso(ValueOr(body, Date))
    ensures Location in fs <==> AllWhitespace(ValueOr(body, Location))
    ensures OrganizerName !in fs && Organizer !in fs
    ensures Distinct(fs) && SubsequenceOf(fs, Validated)
    ensures fs == [] <==>
      && !AllWhitespace(ValueOr(body, Title)) && !AllWhitespace(ValueOr(body, Description))
      && isIso(ValueOr(body, Date)) && !AllWhitespace(ValueOr(body, Location))
  {
    assert Distinct(Validated);
    assert forall i :: 0 <= i < |Validated| ==> Validated[i] in {Title, Description, Date, Location};
    Failing(body, isIso, Validated)
  }

  /** The `trim()` sanitizer of path `f` writes the trimmed value back, when there is one. */
  function TrimMember(body: Body, f: Field): Body {
    if f in body then body[f := Trim(body[f])] else body
  }

  /** The `trim()` sanitizers write the trimmed title, description and location back into
      the body; every other member is left as it was. */
  function Sanitize(body: Body): (b: Body)
    ensures b.Keys == body.Keys
    ensures forall k :: k in body && k != Title && k != Description && k != Location ==> b[k] == body[k]
    ensures forall k :: k in body && (k == Title || k == Description || k == Location) ==> b[k] == Trim(body[k])
  {
    TrimMember(TrimMember(TrimMember(body, Title), Description), Location)
  }

  /** `new Event({ ...req.body, organizer: req.user.id })`: every schema path the body names goes
      through its setter, the others stay unset, and the organizer is the principal. */
  function RouteDraft(body: Body, principal: UserId, parse: DateParser): Draft {
    Assign(ValueOr(body, Title), ValueOr(body, Description),
           if Date in body then NewDate(body[Date], parse) else Unset,
           ValueOr(body, Location), ValueOr(body, OrganizerName), Some(principal))
  }

  /** The organizer of a created event is the principal whatever the body says: the override
      comes after the spread, so an `organizer` member in the body makes no difference. */
  lemma RouteDraftIgnoresBodyOrganizer(body: Body, principal: UserId, parse: DateParser, claimed: string)
    ensures RouteDraft(body, principal, parse).organizer == Some(principal)
    ensures RouteDraft(body[Organizer := claimed], principal, parse) == RouteDraft(body, principal, parse)
  {
    var b := body[Organizer := claimed];
    assert ValueOr(b, Title) == ValueOr(body, Title);
    assert ValueOr(b, Description) == ValueOr(body, Description);
    assert ValueOr(b, Location) == ValueOr(body, Location);
    assert ValueOr(b, OrganizerName) == ValueOr(body, OrganizerName);
    assert (Date in b) == (Date in body);
  }

  /** The `$set` that `findByIdAndUpdate` builds from the body: each schema path the body names,
      cast and through its setter; members that are not schema paths are dropped. The cast of the
      date fails when it does not parse. */
  function CastUpdate(body: Body, parse: DateParser): (p: Option<Patch>)
    ensures p.None? <==> Date in body && parse(body[Date]).None?
    ensures p.Some? ==>
      && p.value.title == (if Title in body then Some(Trim(body[Title])) else None)
      && p.value.description == (if Description in body then Some(Trim(body[Description])) else None)
      && p.value.date == (if Date in body then parse(body[Date]) else None)
      && p.value.location == (if Location in body then Some(Trim(body[Location])) else None)
      && p.value.organizerName == (if OrganizerName in body then Some(Trim(body[OrganizerName])) else None)
      && p.value.organizer == Get(body, Organizer)
  {
    if Date in body && parse(body[Date]).None? then None
    else
      Some(Patch(
        if Title in body then Some(Trim(body[Title])) else None,
        if Description in body then Some(Trim(body[Description])) else None,
        if Date in body then parse(body[Date]) else None,
        if Location in body then Some(Trim(body[Location])) else None,
        if OrganizerName in body then Some(Trim(body[OrganizerName])) else None,
        Get(body, Organizer)))
  }

  /** GET `/`: the same listing as the controller's `getAllEvents`. */
  function ListEvents(t: Table, bound: nat, q: Query): (r: Listing)
    requires Bounded(t, bound) && NonNegative(q)
    ensures r == EventController.GetAllEvents(t, bound, q)
  {
    var page := OrElse(q.page, 1);
    var limit := OrElse(q.limit, 10);
    var skip := Skip(page, limit);
    Listing(PageOf(ByDate(t, bound), skip, limit), page, CeilDiv(|t|, limit), |t|)
  }

  /** GET `/:id`: the stored record, or 404. */
  function GetEventById(t: Table, id: EventId): (r: Response)
    ensures r == EventController.GetEventById(t, id)
  {
    if id in t then Ok(id, t[id]) else NotFound
  }

  /** POST `/`: 400 with the failed rules, without a change; otherwise the sanitized body is
      spread into a new document with the principal as organizer and saved: 201 with the stored
      record, or, when the schema refuses it, a 500 from the generic catch, without a change. */
  method CreateEvent(store: EventCollection, principal: UserId, body: Body,
                     isIso: string -> bool, parse: DateParser) returns (r: Response)
    requires store.Valid()
    modifies store
    ensures store.Valid()
    ensures ValidationErrors(body, isIso) != [] ==>
      r == BodyRejected(ValidationErrors(body, isIso)) && store.records == old(store.records)
    ensures ValidationErrors(body, isIso) == [] ==>
      var d := RouteDraft(Sanitize(body), principal, parse);
      && (!SchemaValid(d) ==> r == ServerError && store.records == old(store.records))
      && (SchemaValid(d) ==>
          && r.Created? && r.event == ToEvent(d) && r.id !in old(store.records)
          && store.records == old(store.records)[r.id := r.event])
    ensures r.Created? ==> r.event.organizer == principal
    ensures AllValid(old(store.records)) ==> AllValid(store.records)
  {
    var errors := ValidationErrors(body, isIso);
    if errors != [] {
      return BodyRejected(errors);
    }
    var doc := store.NewDocument(RouteDraft(Sanitize(body), principal, parse));
    var saved := store.Save(doc);
    match saved
    case Saved(e) =>
      r := Created(doc.id, e);
    case Rejected(_) =>
      r := ServerError;
  }

  /** PUT `/:id`: 400 with the failed rules, then 404 when there is no such record, then 403 when
      the principal is not its organizer, all without a change; otherwise the sanitized body is
      applied as a `$set` without the schema's validators: 200 with the updated record, or a 500
      when the date does not cast, without a change. */
  method UpdateEvent(store: EventCollection, principal: UserId, id: EventId, body: Body,
                     isIso: string -> bool, parse: DateParser) returns (r: Response)
    requires store.Valid()
    modifies store
    ensures store.Valid()
    ensures ValidationErrors(body, isIso) != [] ==>
      r == BodyRejected(ValidationErrors(body, isIso)) && store.records == old(store.records)
    ensures ValidationErrors(body, isIso) == [] && id !in old(store.records) ==>
      r == NotFound && store.records == old(store.records)
    ensures ValidationErrors(body, isIso) == [] && id in old(store.records) && old(store.records)[id].organizer != principal ==>
      r == Forbidden && store.records == old(store.records)
    ensures ValidationErrors(body, isIso) == [] && id in old(store.records) && old(store.records)[id].organizer == principal ==>
      match CastUpdate(Sanitize(body), parse)
      case None => r == ServerError && store.records == old(store.records)
      case Some(p) =>
        && r == Ok(id, Patched(old(store.records)[id], p))
        && store.records == old(store.records)[id := r.event]
    ensures OthersUntouched(old(store.records), store.records, principal)
    ensures store.records.Keys == old(store.records).Keys
  {
    var errors := ValidationErrors(body, isIso);
    if errors != [] {
      return BodyRejected(errors);
    }
    var doc := store.FindById(id);
    if doc == null {
      return NotFound;
    }
    if doc.organizer != Some(principal) {
      return Forbidden;
    }
    var patch := CastUpdate(Sanitize(body), parse);
    if patch.None? {
      return ServerError;
    }
    OwnChangeLeavesOthers(store.records, id, principal, Patched(store.records[id], patch.value));
    var updated := store.FindByIdAndUpdate(id, patch.value);
    r := Ok(id, updated.value);
  }

  /** DELETE `/:id`: 404 when there is no such record, 403 when the principal is not its
      organizer, both without a change; otherwise that record, and only it, is removed. */
  method DeleteEvent(store: EventCollection, principal: UserId, id: EventId) returns (r: Response)
    requires store.Valid()
    modifies store
    ensures store.Valid()
    ensures id !in old(store.records) ==> r == NotFound && store.records == old(store.records)
    ensures id in old(store.records) && old(store.records)[id].organizer != principal ==>
      r == Forbidden && store.records == old(store.records)
    ensures id in old(store.records) && old(store.records)[id].organizer == principal ==>
      r == DeleteConfirmed && store.records == old(store.records) - {id}
    ensures OthersUntouched(old(store.records), store.records, principal)
  {
    var doc := store.FindById(id);
    if doc == null {
      return NotFound;
    }
    if doc.organizer != Some(principal) {
      return Forbidden;
    }
    OwnChangeLeavesOthers(store.records, id, principal, store.records[id]);
    store.Remove(doc.id);
    r := DeleteConfirmed;
  }

  /** As written, a successful update takes the organizer from the body when it names one, so
      the owner can hand the record to another user id and is refused (403) on it from then on. */
  lemma UpdateReassignsOrganizer(e: Event, body: Body, parse: DateParser)
    requires Organizer in body && body[Organizer] != e.organizer
    requires CastUpdate(Sanitize(body), parse).Some?
    ensures Patched(e, CastUpdate(Sanitize(body), parse).value).organizer == body[Organizer] != e.organizer
  {
  }

  /** As written, an update can store a record the schema refuses: the validators do not run on
      `findByIdAndUpdate`, and the validation never looks at `organizerName`, so a blank one passes
      and is stored (trimmed to the empty string). */
  lemma UpdateCanStoreInvalidRecord(e: Event, body: Body, isIso: string -> bool, parse: DateParser)
    requires ValidationErrors(body, isIso) == []
    requires Date in body ==> parse(body[Date]).Some?
    requires OrganizerName in body && AllWhitespace(body[OrganizerName])
    ensures CastUpdate(Sanitize(body), parse).Some?
    ensures !ValidRecord(Patched(e, CastUpdate(Sanitize(body), parse).value))
  {
    var b := Sanitize(body);
    assert b[OrganizerName] == body[OrganizerName];
    assert Trim(b[OrganizerName]) == [];
  }

  /** The update as evidently intended: the `$set` never names the organizer. */
  function OwnerPatch(body: Body, parse: DateParser): (p: Option<Patch>)
    ensures p.None? <==> CastUpdate(body, parse).None?
    ensures p.Some? ==> p.value.organizer.None?
  {
    match CastUpdate(body, parse)
    case None => None
    case Some(p) => Some(p.(organizer := None))
  }

  /** With the organizer left out of the `$set`, an update keeps the owner whatever the body
      says, and changes the other paths exactly as the as-written update does. */
  lemma OwnerPatchKeepsOrganizer(e: Event, body: Body, parse: DateParser)
    requires OwnerPatch(body, parse).Some?
    ensures Patched(e, OwnerPatch(body, parse).value).organizer == e.organizer
    ensures Patched(e, OwnerPatch(body, parse).value)
         == Patched(e, CastUpdate(body, parse).value).(organizer := e.organizer)
  {
  }
}
