/**
 * The event collection endpoint (src/app/api/event/route.ts): POST creates an event
 * for an organisation behind three guards, GET lists every event, newest first.
 * Date.parse and the ObjectId cast of a string are parameters.
 */
module EventRoute {
  import opened Wrappers
  import opened Ids
  import opened Json
  import opened Http
  import opened Sessions
  import opened Sorting
  import opened Documents
  import opened EventModel
  import opened UserModel
  import opened EventValidation
  import opened EventQueries

  /** The fields named by the issues, as validation.error.flatten() groups them. */
  function IssuePaths(issues: seq<Issue>): seq<string> {
    MapSeq(issues, (i: Issue) => i.path)
  }

  /**
   * What Event.create receives: the parsed fields, the caller as organizer, the date
   * string cast to a Date and the stage string cast to an ObjectId. None when the stage
   * cast fails, which makes Event.create throw.
   */
  function DraftOf(input: EventInput, organizer: ObjectId, dateParse: string -> Option<Timestamp>,
                   castObjectId: string -> Option<ObjectId>): (d: Option<EventDraft>)
    ensures d.None? <==> input.stage.Some? && castObjectId(input.stage.value).None?
  {
    if input.stage.Some? && castObjectId(input.stage.value).None? then None
    else
      Some(EventDraft(
        Some(input.title), dateParse(input.date), Some(input.location), Some(organizer),
        Some(input.availableSeats), Some(EventTypeName(input.eventType)),
        if input.stage.None? then None else castObjectId(input.stage.value)))
  }

  /** What POST settles before it writes: a reply that ends the request, or the event to create. */
  datatype PostDecision = Reject(reply: Reply<Event>) | Create(draft: EventDraft)

  /**
   * The guard chain of POST: authentication, then the role, then the body, then the casts.
   * A body that is not JSON (None) makes req.json() throw, which the catch answers with 500.
   */
  function Decide(session: Option<Session>, body: Option<Json>, dateParse: string -> Option<Timestamp>,
                  castObjectId: string -> Option<ObjectId>): (d: PostDecision)
    ensures !SignedIn(session) ==> d == Reject(Error(401, "Unauthorized"))
    ensures SignedIn(session) && Caller(session).role != "org" ==>
      d == Reject(Error(403, "Only organizations can create events"))
    ensures SignedIn(session) && Caller(session).role == "org" && body.None? ==>
      d == Reject(Error(500, "Failed to create event"))
    ensures SignedIn(session) && Caller(session).role == "org" && body.Some? && SafeParse(body.value, dateParse).Err? ==>
      d == Reject(Reply(400, ErrorMessage("Invalid data", IssuePaths(SafeParse(body.value, dateParse).error))))
    ensures (&& SignedIn(session) && Caller(session).role == "org" && body.Some? && SafeParse(body.value, dateParse).Ok?
             && DraftOf(SafeParse(body.value, dateParse).value, Caller(session).id, dateParse, castObjectId).None?) ==>
      d == Reject(Error(500, "Failed to create event"))
    ensures d.Reject? ==> d.reply.status != 201
    ensures d.Create? <==>
      && SignedIn(session) && Caller(session).role == "org" && body.Some? && SafeParse(body.value, dateParse).Ok?
      && DraftOf(SafeParse(body.value, dateParse).value, Caller(session).id, dateParse, castObjectId).Some?
    ensures d.Create? ==>
      d.draft == DraftOf(SafeParse(body.value, dateParse).value, Caller(session).id, dateParse, castObjectId).value
  {
    if !SignedIn(session) then Reject(Error(401, "Unauthorized"))
    else if Caller(session).role != "org" then Reject(Error(403, "Only organizations can create events"))
    else if body.None? then Reject(Error(500, "Failed to create event"))
    else
      match SafeParse(body.value, dateParse)
      case Err(issues) => Reject(Reply(400, ErrorMessage("Invalid data", IssuePaths(issues))))
      case Ok(input) =>
        match DraftOf(input, Caller(session).id, dateParse, castObjectId)
        case None => Reject(Error(500, "Failed to create event"))
        case Some(draft) => Create(draft)
  }

  /**
   * A body that passed eventSchema always passes the Event schema: the route never sees
   * a validation error from Event.create, and the stored event is the parsed body with
   * the caller as organizer.
   */
  lemma CreatedEventIsTheBody(session: Option<Session>, body: Option<Json>, dateParse: string -> Option<Timestamp>,
                              castObjectId: string -> Option<ObjectId>, id: ObjectId, now: Timestamp)
    requires Decide(session, body, dateParse, castObjectId).Create?
    ensures var e := NewEvent(Decide(session, body, dateParse, castObjectId).draft, id, now);
      var input := SafeParse(body.value, dateParse).value;
      && e.Ok?
      && e.value.organizer == Caller(session).id
      && e.value.title == input.title && e.value.location == input.location
      && e.value.availableSeats == input.availableSeats && e.value.eventType == input.eventType
      && Some(e.value.date) == dateParse(input.date)
      && (e.value.stage.Some? <==> input.stage.Some?)
  {
    var input := SafeParse(body.value, dateParse).value;
    var d := Decide(session, body, dateParse, castObjectId).draft;
    assert d == DraftOf(input, Caller(session).id, dateParse, castObjectId).value;
    assert PresentString(d.title) && PresentString(d.location);
    EventTypeRoundTrip(input.eventType);
  }

  /** POST /api/event against the store. */
  method Post(session: Option<Session>, body: Option<Json>, store: EventStore, dateParse: string -> Option<Timestamp>,
              castObjectId: string -> Option<ObjectId>, now: Timestamp) returns (reply: Reply<Event>)
    requires store.Valid()
    modifies store
    ensures store.Valid()
    ensures var d := Decide(session, body, dateParse, castObjectId);
      d.Reject? ==> reply == d.reply && store.events == old(store.events) && store.nextId == old(store.nextId)
    ensures var d := Decide(session, body, dateParse, castObjectId);
      d.Create? ==>
        && NewEvent(d.draft, old(store.nextId), now).Ok?
        && reply == Reply(201, Json(NewEvent(d.draft, old(store.nextId), now).value))
        && store.events == old(store.events) + [NewEvent(d.draft, old(store.nextId), now).value]
  {
    var d := Decide(session, body, dateParse, castObjectId);
    if d.Reject? {
      reply := d.reply;
      return;
    }
    CreatedEventIsTheBody(session, body, dateParse, castObjectId, store.nextId, now);
    var r := store.Insert(d.draft, now);
    reply := Reply(201, Json(r.value));
  }

  /** The organizer as populate("organizer", "name email") leaves it: null once the user is gone. */
  datatype OrganizerRef = OrganizerRef(id: ObjectId, name: string, email: string)

  datatype ListedEvent = ListedEvent(event: Event, organizer: Option<OrganizerRef>)

  function Populate(users: seq<User>, e: Event): (l: ListedEvent)
    ensures l.event == e
    ensures l.organizer.Some? <==> FindById(users, e.organizer).Some?
    ensures l.organizer.Some? ==> exists u :: u in users && u.id == e.organizer && l.organizer.value == OrganizerRef(u.id, u.name, u.email)
  {
    match FindById(users, e.organizer)
    case None => ListedEvent(e, None)
    case Some(u) => ListedEvent(e, Some(OrganizerRef(u.id, u.name, u.email)))
  }

  function EventOf(l: ListedEvent): Event {
    l.event
  }

  /** GET /api/event: every event, newest first, each with its organizer populated. */
  function ListEvents(events: seq<Event>, users: seq<User>): (r: seq<ListedEvent>)
    ensures forall i, j :: 0 <= i < j < |r| ==> r[i].event.createdAt >= r[j].event.createdAt
    ensures multiset(MapSeq(r, EventOf)) == multiset(events)
    ensures forall i :: 0 <= i < |r| ==> r[i] == Populate(users, r[i].event)
  {
    var sorted := NewestFirst(events);
    var r := MapSeq(sorted, (e: Event) => Populate(users, e));
    assert MapSeq(r, EventOf) == sorted;
    r
  }

  /** The GET reply. */
  function Get(events: seq<Event>, users: seq<User>): Reply<seq<ListedEvent>> {
    Reply(200, Json(ListEvents(events, users)))
  }
}
