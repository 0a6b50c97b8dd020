/**
 * The organisation's own event listing (src/app/api/org/events/route.ts): the caller's
 * events, newest first, each reduced to id, name, date and venue. The id and the date
 * keep their model values; toString and toISOString are formatting.
 */
module OrgEventsRoute {
  import opened Wrappers
  import opened Ids
  import opened Http
  import opened Sessions
  import opened Sorting
  import opened EventModel
  import opened EventQueries

  datatype OrgEventRow = OrgEventRow(id: ObjectId, name: string, date: Timestamp, venue: string)

  function Row(e: Event): OrgEventRow {
    OrgEventRow(e.id, e.title, e.date, e.location)
  }

  /**
   * GET /api/org/events. A session without a user makes session.user.role throw, and
   * the catch answers 500.
   */
  function Get(session: Option<Session>, events: seq<Event>): (r: Reply<seq<OrgEventRow>>)
    ensures session.None? ==> r == Error(401, "Unauthorized")
    ensures session.Some? && session.value.user.None? ==> r == Error(500, "Failed to fetch events")
    ensures SignedIn(session) && Caller(session).role != "org" ==> r == Error(401, "Unauthorized")
    ensures r.status == 200 <==> SignedIn(session) && Caller(session).role == "org"
    ensures r.status == 200 ==>
      var own := OwnEventsNewestFirst(events, Caller(session).id);
      r.body.Json? && |r.body.value| == |own| && forall i :: 0 <= i < |own| ==> r.body.value[i] == Row(own[i])
  {
    if session.None? then Error(401, "Unauthorized")
    else if session.value.user.None? then Error(500, "Failed to fetch events")
    else if session.value.user.value.role != "org" then Error(401, "Unauthorized")
    else Reply(200, Json(MapSeq(OwnEventsNewestFirst(events, Caller(session).id), Row)))
  }

  /**
   * A successful reply lists a row for every event of the caller and for no other
   * event, newest first.
   */
  lemma RowsAreTheCallersEvents(session: Option<Session>, events: seq<Event>)
    requires Get(session, events).status == 200
    ensures var rows := Get(session, events).body.value;
      && (forall e :: e in events && e.organizer == Caller(session).id ==> Row(e) in rows)
      && (forall row :: row in rows ==> exists e :: e in events && e.organizer == Caller(session).id && row == Row(e))
    ensures var rows := Get(session, events).body.value;
      var own := OwnEventsNewestFirst(events, Caller(session).id);
      forall i, j :: 0 <= i < j < |rows| ==> own[i].createdAt >= own[j].createdAt
  {
    var rows := Get(session, events).body.value;
    var own := OwnEventsNewestFirst(events, Caller(session).id);
    forall e | e in events && e.organizer == Caller(session).id
      ensures Row(e) in rows
    {
      var i :| 0 <= i < |own| && own[i] == e;
      assert rows[i] == Row(e);
    }
    forall row | row in rows
      ensures exists e :: e in events && e.organizer == Caller(session).id && row == Row(e)
    {
      var i :| 0 <= i < |rows| && rows[i] == row;
      assert own[i] in own;
    }
  }
}
