/**
 * The event collection (src/models/Event.ts): the type enum, the required paths, the
 * optional stage reference, and timestamps. The schema declares no unique index.
 */
module EventModel {
  import opened Wrappers
  import opened Ids
  import opened Documents

  datatype EventType = Public | Private

  function EventTypeName(t: EventType): string {
    match t
    case Public => "public"
    case Private => "private"
  }

  /** The enum rule of the type path. */
  function ParseEventType(name: string): (r: Option<EventType>)
    ensures r.Some? <==> name == "public" || name == "private"
    ensures r.Some? ==> EventTypeName(r.value) == name
  {
    if name == "public" then Some(Public)
    else if name == "private" then Some(Private)
    else None
  }

  lemma EventTypeRoundTrip(t: EventType)
    ensures ParseEventType(EventTypeName(t)) == Some(t)
  {
  }

  datatype Event = Event(
    id: ObjectId,
    title: string,
    date: Timestamp,
    location: string,
    organizer: ObjectId,
    availableSeats: real,
    eventType: EventType,
    stage: Option<ObjectId>,
    createdAt: Timestamp,
    updatedAt: Timestamp)

  datatype EventDraft = EventDraft(
    title: Option<string>,
    date: Option<Timestamp>,
    location: Option<string>,
    organizer: Option<ObjectId>,
    availableSeats: Option<real>,
    eventType: Option<string>,
    stage: Option<ObjectId>)

  /** The type path is required and has no default. */
  function DraftType(d: EventDraft): Option<EventType> {
    if d.eventType.None? then None else ParseEventType(d.eventType.value)
  }

  function EventChecks(d: EventDraft): seq<Check> {
    [ Check("title", PresentString(d.title)),
      Check("date", d.date.Some?),
      Check("location", PresentString(d.location)),
      Check("organizer", d.organizer.Some?),
      Check("availableSeats", d.availableSeats.Some?),
      Check("type", DraftType(d).Some?) ]
  }

  /** Validation of a draft: the event it becomes. */
  function NewEvent(d: EventDraft, id: ObjectId, now: Timestamp): (r: Result<Event, DbError>)
    ensures r.Ok? <==>
      && PresentString(d.title) && d.date.Some? && PresentString(d.location)
      && d.organizer.Some? && d.availableSeats.Some?
      && d.eventType.Some? && ParseEventType(d.eventType.value).Some?
    ensures r.Ok? ==>
      && r.value.id == id && r.value.title == d.title.value && r.value.date == d.date.value
      && r.value.location == d.location.value && r.value.organizer == d.organizer.value
      && r.value.availableSeats == d.availableSeats.value
      && EventTypeName(r.value.eventType) == d.eventType.value
      && r.value.stage == d.stage
      && r.value.createdAt == now && r.value.updatedAt == now
    ensures r.Err? ==> r.error.ValidationFailed? && r.error.paths != []
  {
    var failing := Failing(EventChecks(d));
    if failing != [] then Err(ValidationFailed(failing))
    else
      assert EventChecks(d)[0].holds && EventChecks(d)[1].holds && EventChecks(d)[2].holds;
      assert EventChecks(d)[3].holds && EventChecks(d)[4].holds && EventChecks(d)[5].holds;
      Ok(Event(id, d.title.value, d.date.value, d.location.value, d.organizer.value,
               d.availableSeats.value, DraftType(d).value, d.stage, now, now))
  }

  /**
   * Without a unique index any valid draft is stored, even one identical to a stored
   * event: the two differ only in their ids.
   */
  lemma SameDraftTwice(d: EventDraft, id1: ObjectId, id2: ObjectId, now: Timestamp)
    requires NewEvent(d, id1, now).Ok?
    ensures NewEvent(d, id2, now).Ok?
    ensures NewEvent(d, id2, now).value == NewEvent(d, id1, now).value.(id := id2)
  {
  }

  class EventStore {
    var events: seq<Event>
    var nextId: ObjectId

    ghost predicate Valid()
      reads this
    {
      && (forall i :: 0 <= i < |events| ==> events[i].id < nextId)
      && (forall i, j :: 0 <= i < j < |events| ==> events[i].id < events[j].id)
    }

    constructor()
      ensures Valid() && events == [] && nextId == 0
    {
      events, nextId := [], 0;
    }

    /** Event.create: only validation can refuse a draft. */
    method Insert(d: EventDraft, now: Timestamp) returns (r: Result<Event, DbError>)
      requires Valid()
      modifies this
      ensures Valid()
      ensures r == NewEvent(d, old(nextId), now)
      ensures r.Ok? ==> events == old(events) + [r.value] && nextId == old(nextId) + 1
      ensures r.Err? ==> events == old(events) && nextId == old(nextId)
    {
      r := NewEvent(d, nextId, now);
      if r.Ok? {
        events := events + [r.value];
        nextId := nextId + 1;
      }
    }
  }
}
