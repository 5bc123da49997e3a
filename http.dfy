/** What a handler sees of a request and what it sends back. */
module Http {
  import opened Common
  import opened EventSchema
  import opened EventStore

  /** A JSON request body, by the schema path each member names; a member that is not there is
      `undefined`. Members that name no schema path are left out: no handler reads them, and
      strict mode drops them when a document is built or updated from the body. */
  type Body = map<Field, string>

  /** `Date.parse`-style reading of a string: the instant in epoch milliseconds, or `None` for
      `Invalid Date`. The model takes the parser as a parameter and assumes nothing about it. */
  type DateParser = string -> Option<int>

  function Get(body: Body, key: Field): (v: Option<string>)
    ensures v.Some? <==> key in body
    ensures v.Some? ==> v.value == body[key]
  {
    if key in body then Some(body[key]) else None
  }

  /** JavaScript truthiness of a body member: `undefined` and `""` are falsy. */
  predicate Truthy(v: Option<string>) {
    v.Some? && v.value != ""
  }

  /** `new Date(s)`: a valid instant, or `Invalid Date`. */
  function NewDate(s: string, parse: DateParser): (c: DateCell)
    ensures c.At? <==> parse(s).Some?
    ensures c.At? ==> c.epochMillis == parse(s).value
    ensures parse(s).None? ==> c == InvalidDate
  {
    match parse(s)
    case Some(ms) => At(ms)
    case None => InvalidDate
  }

  /** The five members the handlers read, as destructured from `req.body`. */
  datatype Payload = Payload(
    title: Option<string>,
    description: Option<string>,
    date: Option<string>,
    location: Option<string>,
    organizerName: Option<string>)

  function PayloadOf(body: Body): Payload {
    Payload(Get(body, Title), Get(body, Description), Get(body, Date),
            Get(body, Location), Get(body, OrganizerName))
  }

  datatype Response =
    | Ok(id: EventId, event: Event)             // 200, the record
    | Created(id: EventId, event: Event)        // 201, the record
    | DeleteConfirmed                           // 200, { message: 'Event deleted successfully' }
    | MissingRequiredFields(given: Payload)     // 400, { message: 'Missing required fields', required }
    | SchemaRejected(errors: seq<string>)       // 400, { message: 'Validation Error', errors }
    | BodyRejected(failed: seq<Field>)          // 400, { errors: errors.array() }, one entry per failed rule
    | NotFound                                  // 404
    | Forbidden                                 // 403
    | ServerError                               // 500, an exception reached the generic catch
  {
    function Status(): int {
      match this
      case Ok(_, _) => 200
      case Created(_, _) => 201
      case DeleteConfirmed => 200
      case MissingRequiredFields(_) => 400
      case SchemaRejected(_) => 400
      case BodyRejected(_) => 400
      case NotFound => 404
      case Forbidden => 403
      case ServerError => 500
    }
  }
}
