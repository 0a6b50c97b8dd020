/**
 * The public event listing (src/app/api/events/route.ts): public events only, earliest
 * date first, each shown with its organizer's name. The id and the date keep their
 * model values; toString and toISOString are formatting.
 */
module PublicEventsRoute {
  import opened Wrappers
  import opened Ids
  import opened Http
  import opened Sorting
  import opened EventModel
  import opened UserModel
  import opened EventQueries

  datatype PublicEvent = PublicEvent(
    id: ObjectId,
    title: string,
    date: Timestamp,
    location: string,
    availableSeats: real,
    eventType: EventType,
    organizer: string)

  /** The populated organizer's name, or "Unknown" when the user is gone or its name is empty. */
  function OrganizerName(users: seq<User>, organizer: ObjectId): (name: string)
    ensures FindById(users, organizer).Some? && FindById(users, organizer).value.name != "" ==>
      name == FindById(users, organizer).value.name
    ensures FindById(users, organizer).None? || FindById(users, organizer).value.name == "" ==>
      name == "Unknown"
  {
    match FindById(users, organizer)
    case None => "Unknown"
    case Some(u) => if u.name != "" then u.name else "Unknown"
  }

  function Project(users: seq<User>, e: Event): PublicEvent {
    PublicEvent(e.id, e.title, e.date, e.location, e.availableSeats, e.eventType, OrganizerName(users, e.organizer))
  }

  /** The events the listing shows, in its order: the public ones, earliest date first. */
  function ListedEvents(events: seq<Event>): (r: seq<Event>)
    ensures forall i, j :: 0 <= i < j < |r| ==> r[i].date <= r[j].date
    ensures forall e :: e in r <==> e in events && e.eventType == Public
  {
    var sorted := EarliestFirst(PublicEvents(events));
    SameMembers(sorted, PublicEvents(events));
    sorted
  }

  /** GET /api/events: the listed events, each projected with its organizer's name. */
  function PublicListing(events: seq<Event>, users: seq<User>): (r: seq<PublicEvent>)
    ensures |r| == |ListedEvents(events)|
    ensures forall i :: 0 <= i < |r| ==> r[i] == Project(users, ListedEvents(events)[i])
  {
    MapSeq(ListedEvents(events), (e: Event) => Project(users, e))
  }

  /**
   * The listing shows every public event and nothing else, in date order, each under
   * its organizer's name.
   */
  lemma PublicListingShowsPublicEvents(events: seq<Event>, users: seq<User>)
    ensures forall i :: 0 <= i < |PublicListing(events, users)| ==>
      PublicListing(events, users)[i].eventType == Public
    ensures forall i, j :: 0 <= i < j < |PublicListing(events, users)| ==>
      PublicListing(events, users)[i].date <= PublicListing(events, users)[j].date
    ensures forall e :: e in events && e.eventType == Public ==> Project(users, e) in PublicListing(events, users)
    ensures forall p :: p in PublicListing(events, users) ==>
      exists e :: e in events && e.eventType == Public && p == Project(users, e)
  {
    var l, r := ListedEvents(events), PublicListing(events, users);
    forall i | 0 <= i < |r| ensures r[i].eventType == Public {
      assert l[i] in l;
    }
    forall e | e in events && e.eventType == Public
      ensures Project(users, e) in r
    {
      var i :| 0 <= i < |l| && l[i] == e;
      assert r[i] == Project(users, e);
    }
    forall p | p in r
      ensures exists e :: e in events && e.eventType == Public && p == Project(users, e)
    {
      var i :| 0 <= i < |r| && r[i] == p;
      assert l[i] in l;
    }
  }

  function Get(events: seq<Event>, users: seq<User>): Reply<seq<PublicEvent>> {
    Reply(200, Json(PublicListing(events, users)))
  }

  /** The response never lists a private event, whatever the collection holds. */
  lemma NoPrivateEventListed(events: seq<Event>, users: seq<User>, e: Event)
    requires e.eventType == Private
    ensures Project(users, e) !in PublicListing(events, users)
  {
    PublicListingShowsPublicEvents(events, users);
  }
}
