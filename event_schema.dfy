/** The `Event` schema of server/models/Event.js: six required paths, four of them trimmed
    strings, a `date` that must hold a valid instant, and the `organizer` user reference.

    A `Draft` is a document as it stands before `save()`: what each path holds after the
    handler's assignment went through the path's setter (`trim: true` trims on assignment;
    an unassigned string path reads as the empty string, an unassigned `date` as `Unset`).
    An `Event` is what the collection stores once the schema accepts a draft. */
module EventSchema {
  import opened Common

  /** The identifier of a user, as `req.user.id` and `organizer.toString()` render it. */
  type UserId = string

  /** The `date` path after casting: not given, given but not a valid instant
      (`new Date(...)` gave `Invalid Date`), or a valid instant in epoch milliseconds. */
  datatype DateCell = Unset | InvalidDate | At(epochMillis: int)

  /** The schema's paths, in declaration order. */
  datatype Field = Title | Description | Date | Location | OrganizerName | Organizer

  datatype Draft = Draft(
    title: string,
    description: string,
    date: DateCell,
    location: string,
    organizerName: string,
    organizer: Option<UserId>)

  datatype Event = Event(
    title: string,
    description: string,
    date: int,
    location: string,
    organizerName: string,
    organizer: UserId)

  /** One entry of a Mongoose `ValidationError`: a required path left empty, or the date validator failing. */
  datatype Violation = Required(field: Field) | BadDate {
    function Path(): Field {
      if Required? then field else Date
    }
  }

  /** `required: true` on a string path: the value the setter left must not be empty. */
  predicate Filled(s: string) {
    s != ""
  }

  /** `new Event({...})`, or assigning every path of a document: the `trim: true` setters run
      on the four string paths; the date and the organizer are taken as given. */
  function Assign(title: string, description: string, date: DateCell, location: string,
                  organizerName: string, organizer: Option<UserId>): (d: Draft)
    ensures d.date == date && d.organizer == organizer
    ensures Filled(d.title) <==> !AllWhitespace(title)
    ensures Filled(d.description) <==> !AllWhitespace(description)
    ensures Filled(d.location) <==> !AllWhitespace(location)
    ensures Filled(d.organizerName) <==> !AllWhitespace(organizerName)
  {
    Draft(Trim(title), Trim(description), date, Trim(location), Trim(organizerName), organizer)
  }

  /** The rule each path declares, on its own. */
  predicate FieldOk(d: Draft, f: Field) {
    match f
    case Title => Filled(d.title)
    case Description => Filled(d.description)
    case Date => d.date.At?
    case Location => Filled(d.location)
    case OrganizerName => Filled(d.organizerName)
    case Organizer => d.organizer.Some?
  }

  /** Some violation in `vs` is about path `f`. */
  predicate Reported(vs: seq<Violation>, f: Field) {
    vs != [] && (vs[0].Path() == f || Reported(vs[1..], f))
  }

  /** No path is reported twice. */
  predicate OncePerPath(vs: seq<Violation>) {
    forall i, j :: 0 <= i < j < |vs| ==> vs[i].Path() != vs[j].Path()
  }

  predicate Distinct(fs: seq<Field>) {
    forall i, j :: 0 <= i < j < |fs| ==> fs[i] != fs[j]
  }

  /** What one path's rule contributes: nothing when it holds, otherwise one violation of that path. */
  function Check(d: Draft, f: Field): (vs: seq<Violation>)
    ensures |vs| <= 1
    ensures vs == [] <==> FieldOk(d, f)
    ensures vs != [] ==> vs[0].Path() == f
    ensures f == Date && d.date.Unset? ==> vs == [Required(Date)]
    ensures f == Date && d.date.InvalidDate? ==> vs == [BadDate]
    ensures f != Date && !FieldOk(d, f) ==> vs == [Required(f)]
  {
    match f
    case Date =>
      (match d.date
       case Unset => [Required(Date)]
       case InvalidDate => [BadDate]
       case At(_) => [])
    case _ => if FieldOk(d, f) then [] else [Required(f)]
  }

  /** The violations of the paths in `fs`, in the order of `fs`: a path is reported exactly when
      it is listed and its rule fails, and only listed paths are reported. */
  function Collect(d: Draft, fs: seq<Field>): (vs: seq<Violation>)
    ensures forall f :: Reported(vs, f) <==> f in fs && !FieldOk(d, f)
    ensures forall i :: 0 <= i < |vs| ==> vs[i].Path() in fs
    ensures forall i :: 0 <= i < |vs| ==> Check(d, vs[i].Path()) == [vs[i]]
  {
    if fs == [] then []
    else
      var head, tail := Check(d, fs[0]), Collect(d, fs[1..]);
      if head == [] then
        tail
      else
        assert (head + tail)[0] == head[0] && (head + tail)[1..] == tail;
        head + tail
  }

  /** Over paths listed once each, no path is reported twice. */
  lemma {:induction false} CollectOncePerPath(d: Draft, fs: seq<Field>)
    requires Distinct(fs)
    ensures OncePerPath(Collect(d, fs))
  {
    if fs != [] {
      var head, tail := Check(d, fs[0]), Collect(d, fs[1..]);
      CollectOncePerPath(d, fs[1..]);
      if head != [] {
        assert Collect(d, fs) == head + tail;
        assert forall i :: 0 <= i < |tail| ==> tail[i].Path() in fs[1..] && tail[i].Path() != fs[0];
      }
    }
  }

  /** The schema's paths, in declaration order. */
  const SchemaOrder: seq<Field> := [Title, Description, Date, Location, OrganizerName, Organizer]

  /** The declaration order lists every path, each once. */
  lemma SchemaOrderComplete()
    ensures forall f: Field :: f in SchemaOrder
    ensures Distinct(SchemaOrder)
  {
    forall f: Field ensures f in SchemaOrder {
      match f
      case Title => assert SchemaOrder[0] == f;
      case Description => assert SchemaOrder[1] == f;
      case Date => assert SchemaOrder[2] == f;
      case Location => assert SchemaOrder[3] == f;
      case OrganizerName => assert SchemaOrder[4] == f;
      case Organizer => assert SchemaOrder[5] == f;
    }
  }

  /** A draft the schema accepts: every path's own rule holds. */
  predicate SchemaValid(d: Draft) {
    && Filled(d.title) && Filled(d.description) && d.date.At?
    && Filled(d.location) && Filled(d.organizerName) && d.organizer.Some?
  }

  /** The schema accepts a draft exactly when the rule of every one of its paths holds. */
  lemma SchemaValidEveryRule(d: Draft)
    ensures SchemaValid(d) <==> forall f :: FieldOk(d, f)
  {
    if SchemaValid(d) {
      forall f ensures FieldOk(d, f) {
        match f
        case Title =>
        case Description =>
        case Date =>
        case Location =>
        case OrganizerName =>
        case Organizer =>
      }
    } else {
      assert !FieldOk(d, Title) || !FieldOk(d, Description) || !FieldOk(d, Date)
          || !FieldOk(d, Location) || !FieldOk(d, OrganizerName) || !FieldOk(d, Organizer);
    }
  }

  /** The violations `save()` reports for a draft, in schema order; there are none exactly
      when the draft passes. */
  function Violations(d: Draft): (vs: seq<Violation>)
    ensures vs == [] <==> SchemaValid(d)
  {
    SchemaOrderComplete();
    var vs := Collect(d, SchemaOrder);
    if vs == [] then
      assert Filled(d.title) by { assert FieldOk(d, Title); }
      assert Filled(d.description) by { assert FieldOk(d, Description); }
      assert d.date.At? by { assert FieldOk(d, Date); }
      assert Filled(d.location) by { assert FieldOk(d, Location); }
      assert Filled(d.organizerName) by { assert FieldOk(d, OrganizerName); }
      assert d.organizer.Some? by { assert FieldOk(d, Organizer); }
      vs
    else
      assert Reported(vs, vs[0].Path());
      vs
  }

  /** `save()` reports a path exactly when that path's own rule fails, and no path twice. */
  lemma ViolationsReportEachFailedRule(d: Draft)
    ensures forall f :: Reported(Violations(d), f) <==> !FieldOk(d, f)
    ensures OncePerPath(Violations(d))
    ensures forall i :: 0 <= i < |Violations(d)| ==> Check(d, Violations(d)[i].Path()) == [Violations(d)[i]]
  {
    SchemaOrderComplete();
    CollectOncePerPath(d, SchemaOrder);
  }

  /** The message each violation contributes to the controller's `errors` list. */
  function Message(v: Violation): string {
    match v
    case Required(Title) => "Title is required"
    case Required(Description) => "Description is required"
    case Required(Date) => "Date is required"
    case Required(Location) => "Location is required"
    case Required(OrganizerName) => "Organizer name is required"
    case Required(Organizer) => "Path `organizer` is required."
    case BadDate => "Invalid date format"
  }

  /** `Object.values(error.errors).map(err => err.message)`: one message per violation. */
  function Messages(vs: seq<Violation>): (ms: seq<string>)
    ensures |ms| == |vs|
    ensures forall i :: 0 <= i < |vs| ==> ms[i] == Message(vs[i])
  {
    if vs == [] then [] else [Message(vs[0])] + Messages(vs[1..])
  }

  /** Violations all about one path, no path twice: there is at most one. */
  lemma OnePathOnce(vs: seq<Violation>, f: Field)
    requires OncePerPath(vs)
    requires forall i :: 0 <= i < |vs| ==> vs[i].Path() == f
    ensures |vs| <= 1
  {
    if vs != [] {
      assert vs[0].Path() == vs[|vs| - 1].Path();
    }
  }

  /** A draft whose only fault is a date that is not a valid instant draws the date
      validator's message alone, not the `required` one. */
  lemma InvalidDateMessage(d: Draft)
    requires d.date.InvalidDate?
    requires Filled(d.title) && Filled(d.description) && Filled(d.location)
    requires Filled(d.organizerName) && d.organizer.Some?
    ensures Messages(Violations(d)) == ["Invalid date format"]
  {
    var vs := Violations(d);
    ViolationsReportEachFailedRule(d);
    assert vs != [];
    assert forall i :: 0 <= i < |vs| ==> vs[i].Path() == Date;
    OnePathOnce(vs, Date);
    assert Check(d, vs[0].Path()) == [vs[0]];
    assert vs == [BadDate];
  }

  /** What `save()` stores for an accepted draft. */
  function ToEvent(d: Draft): (e: Event)
    requires SchemaValid(d)
    ensures ToDraft(e) == d && ValidRecord(e)
  {
    Event(d.title, d.description, d.date.epochMillis, d.location, d.organizerName, d.organizer.value)
  }

  /** A stored record, loaded back into a document (loading runs no setters). */
  function ToDraft(e: Event): Draft {
    Draft(e.title, e.description, At(e.date), e.location, e.organizerName, Some(e.organizer))
  }

  /** A stored record the schema accepts as it stands. */
  predicate ValidRecord(e: Event) {
    SchemaValid(ToDraft(e))
  }

  /** A record saved from assigned paths holds each string path trimmed and non-empty (so a
      whitespace-only value is refused rather than stored), the instant that was assigned and
      the organizer that was assigned; loading it and saving it again stores the same record. */
  lemma SavedRecordNormal(title: string, description: string, date: DateCell, location: string,
                          organizerName: string, organizer: Option<UserId>)
    requires SchemaValid(Assign(title, description, date, location, organizerName, organizer))
    ensures var e := ToEvent(Assign(title, description, date, location, organizerName, organizer));
      && Trim(e.title) == e.title == Trim(title) != ""
      && Trim(e.description) == e.description == Trim(description) != ""
      && Trim(e.location) == e.location == Trim(location) != ""
      && Trim(e.organizerName) == e.organizerName == Trim(organizerName) != ""
      && date == At(e.date)
      && organizer == Some(e.organizer)
      && ValidRecord(e)
      && ToEvent(ToDraft(e)) == e
  {
    TrimIdempotent(title);
    TrimIdempotent(description);
    TrimIdempotent(location);
    TrimIdempotent(organizerName);
  }
}
