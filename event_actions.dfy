/**
 * The server action getOrgEvents (src/lib/actions/event.ts): the caller's events,
 * newest first, as summaries. The Event schema has no stageShape path, so the summary's
 * stageShape is always undefined.
 */
module EventActions {
  import opened Wrappers
  import opened Ids
  import opened Sessions
  import opened Sorting
  import opened EventModel
  import opened EventQueries
  import OrgEventsRoute

  /** What the action throws: its own Error, or the TypeError of reading a missing user. */
  datatype Thrown = ThrownError(message: string) | TypeError

  datatype OrgEventSummary = OrgEventSummary(
    id: ObjectId,
    name: string,
    organizer: ObjectId,
    date: Timestamp,
    location: string,
    availableSeats: real,
    eventType: EventType,
    stageShape: Option<string>)

  function Summary(e: Event): OrgEventSummary {
    OrgEventSummary(e.id, e.title, e.organizer, e.date, e.location, e.availableSeats, e.eventType, None)
  }

  function GetOrgEvents(session: Option<Session>, events: seq<Event>): (r: Result<seq<OrgEventSummary>, Thrown>)
    ensures session.None? ==> r == Err(ThrownError("Unauthorized"))
    ensures session.Some? && session.value.user.None? ==> r == Err(TypeError)
    ensures SignedIn(session) && Caller(session).role != "org" ==> r == Err(ThrownError("Unauthorized"))
    ensures r.Ok? <==> SignedIn(session) && Caller(session).role == "org"
    ensures r.Ok? ==>
      var own := OwnEventsNewestFirst(events, Caller(session).id);
      |r.value| == |own| && forall i :: 0 <= i < |own| ==> r.value[i] == Summary(own[i])
  {
    if session.None? then Err(ThrownError("Unauthorized"))
    else if session.value.user.None? then Err(TypeError)
    else if session.value.user.value.role != "org" then Err(ThrownError("Unauthorized"))
    else Ok(MapSeq(OwnEventsNewestFirst(events, Caller(session).id), Summary))
  }

  /**
   * Every summary is one of the caller's events, organizer included, and carries no
   * stage shape.
   */
  lemma SummariesAreTheCallersEvents(session: Option<Session>, events: seq<Event>)
    requires GetOrgEvents(session, events).Ok?
    ensures forall s :: s in GetOrgEvents(session, events).value ==>
      && s.organizer == Caller(session).id && s.stageShape.None?
      && exists e :: e in events && e.organizer == Caller(session).id && s == Summary(e)
    ensures forall e :: e in events && e.organizer == Caller(session).id ==>
      Summary(e) in GetOrgEvents(session, events).value
  {
    var sums := GetOrgEvents(session, events).value;
    var own := OwnEventsNewestFirst(events, Caller(session).id);
    forall s | s in sums
      ensures s.organizer == Caller(session).id && s.stageShape.None?
      ensures exists e :: e in events && e.organizer == Caller(session).id && s == Summary(e)
    {
      var i :| 0 <= i < |sums| && sums[i] == s;
      assert own[i] in own;
    }
    forall e | e in events && e.organizer == Caller(session).id
      ensures Summary(e) in sums
    {
      var i :| 0 <= i < |own| && own[i] == e;
      assert sums[i] == Summary(e);
    }
  }

  /**
   * The action and GET /api/org/events agree: the action succeeds exactly when the
   * route answers 200, and both list the same events in the same order.
   */
  lemma ActionAgreesWithRoute(session: Option<Session>, events: seq<Event>)
    ensures GetOrgEvents(session, events).Ok? <==> OrgEventsRoute.Get(session, events).status == 200
    ensures GetOrgEvents(session, events).Ok? ==>
      var sums, rows := GetOrgEvents(session, events).value, OrgEventsRoute.Get(session, events).body.value;
      |sums| == |rows| && forall i :: 0 <= i < |sums| ==> sums[i].id == rows[i].id && sums[i].name == rows[i].name
  {
  }
}
