/** The `events` collection behind the `Event` model, reduced to what the handlers use:
    `new Event(...)`, `findById`, `save`, `findByIdAndUpdate` and the document deletes.
    Identifiers are handed out in increasing order, which stands in for ObjectId generation. */
module EventStore {
  import opened Common
  import opened EventSchema

  type EventId = nat
  type Table = map<EventId, Event>

  /** Every stored record passes the schema as it stands. */
  predicate AllValid(t: Table) {
    forall id :: id in t ==> ValidRecord(t[id])
  }

  /** Records whose organizer is not `principal` are still there, unchanged. */
  predicate OthersUntouched(before: Table, after: Table, principal: UserId) {
    forall id :: id in before && before[id].organizer != principal ==> id in after && after[id] == before[id]
  }

  /** Changing nothing, or changing only a record of one's own (replacing it or removing it),
      leaves everybody else's records as they were; the set of identifiers stays the same
      unless the record is removed. */
  lemma OwnChangeLeavesOthers(before: Table, id: EventId, principal: UserId, e: Event)
    ensures OthersUntouched(before, before, principal)
    ensures id in before && before[id].organizer == principal ==>
      && OthersUntouched(before, before[id := e], principal)
      && OthersUntouched(before, before - {id}, principal)
      && before[id := e].Keys == before.Keys
  {
  }

  /** What `save()` does with a document: store it, or throw a `ValidationError` listing the violations. */
  datatype SaveResult = Saved(event: Event) | Rejected(violations: seq<Violation>)

  /** The already-cast `$set` of a `findByIdAndUpdate`: the paths it names, with their new values. */
  datatype Patch = Patch(
    title: Option<string>,
    description: Option<string>,
    date: Option<int>,
    location: Option<string>,
    organizerName: Option<string>,
    organizer: Option<UserId>)

  function Override<T>(current: T, update: Option<T>): T {
    if update.Some? then update.value else current
  }

  /** A record after a `$set`: every named path takes its new value, the others keep theirs. */
  function Patched(e: Event, p: Patch): Event {
    Event(Override(e.title, p.title), Override(e.description, p.description), Override(e.date, p.date),
          Override(e.location, p.location), Override(e.organizerName, p.organizerName),
          Override(e.organizer, p.organizer))
  }

  /** A Mongoose document: a record loaded by `findById`, or a new one built by `new Event(...)`.
      Handlers assign its paths one by one and then `save()` it. */
  class EventDocument {
    const id: EventId
    var title: string
    var description: string
    var date: DateCell
    var location: string
    var organizerName: string
    var organizer: Option<UserId>

    constructor (id: EventId, d: Draft)
      ensures this.id == id && Snapshot() == d
    {
      this.id := id;
      title, description, date := d.title, d.description, d.date;
      location, organizerName, organizer := d.location, d.organizerName, d.organizer;
    }

    /** The document's current paths. */
    function Snapshot(): Draft
      reads this
    {
      Draft(title, description, date, location, organizerName, organizer)
    }
  }

  class EventCollection {
    var records: Table
    var nextId: EventId

    /** Every identifier in use was handed out already, so `nextId` is fresh. */
    ghost predicate Valid()
      reads this
    {
      forall id :: id in records ==> id < nextId
    }

    constructor ()
      ensures Valid() && records == map[]
    {
      records, nextId := map[], 0;
    }

    /** `new Event(fields)`: a document with a fresh identifier; nothing is stored yet. */
    method NewDocument(d: Draft) returns (doc: EventDocument)
      requires Valid()
      modifies this
      ensures Valid() && fresh(doc)
      ensures doc.id !in records && doc.id < nextId && doc.Snapshot() == d
      ensures records == old(records)
    {
      doc := new EventDocument(nextId, d);
      nextId := nextId + 1;
    }

    /** `findById(id)`: a fresh document holding the stored record, or `null` when there is none. */
    method FindById(id: EventId) returns (doc: EventDocument?)
      ensures doc == null <==> id !in records
      ensures doc != null ==> fresh(doc) && doc.id == id && doc.Snapshot() == ToDraft(records[id])
    {
      if id in records {
        doc := new EventDocument(id, ToDraft(records[id]));
      } else {
        doc := null;
      }
    }

    /** `doc.save()`: runs every schema rule; stores the record under the document's
        identifier when all pass, and otherwise stores nothing and reports the violations. */
    method Save(doc: EventDocument) returns (r: SaveResult)
      requires Valid() && doc.id < nextId
      modifies this
      ensures Valid() && nextId == old(nextId)
      ensures SchemaValid(doc.Snapshot()) ==>
        r == Saved(ToEvent(doc.Snapshot())) && records == old(records)[doc.id := r.event]
      ensures !SchemaValid(doc.Snapshot()) ==>
        r == Rejected(Violations(doc.Snapshot())) && records == old(records)
      ensures AllValid(old(records)) ==> AllValid(records)
    {
      var d := doc.Snapshot();
      if SchemaValid(d) {
        r := Saved(ToEvent(d));
        records := records[doc.id := r.event];
      } else {
        r := Rejected(Violations(d));
      }
    }

    /** `findByIdAndUpdate(id, patch, { new: true })`: applies the patch without running the
        schema's validators and returns the record as updated, or nothing when there is none. */
    method FindByIdAndUpdate(id: EventId, p: Patch) returns (r: Option<Event>)
      requires Valid()
      modifies this
      ensures Valid() && nextId == old(nextId)
      ensures id !in old(records) ==> r == None && records == old(records)
      ensures id in old(records) ==>
        r == Some(Patched(old(records)[id], p)) && records == old(records)[id := r.value]
    {
      if id in records {
        var e := Patched(records[id], p);
        records := records[id := e];
        r := Some(e);
      } else {
        r := None;
      }
    }

    /** `doc.remove()` / `doc.deleteOne()`: the record with that identifier is gone, nothing else changes. */
    method Remove(id: EventId)
      requires Valid()
      modifies this
      ensures Valid() && nextId == old(nextId)
      ensures records == old(records) - {id}
      ensures AllValid(old(records)) ==> AllValid(records)
    {
      records := records - {id};
    }
  }
}
