/**
 * The queries the event listings run against the event collection: the filters of
 * Event.find and the orders of .sort({ createdAt: -1 }) and .sort({ date: 1 }).
 */
module EventQueries {
  import opened Ids
  import opened Sorting
  import opened EventModel

  /** .sort({ createdAt: -1 }) as an order: a is listed before b when it is not older. */
  predicate CreatedNoEarlier(a: Event, b: Event) {
    a.createdAt >= b.createdAt
  }

  /** .sort({ date: 1 }) as an order. */
  predicate DatedNoLater(a: Event, b: Event) {
    a.date <= b.date
  }

  lemma OrdersAreTotalPreorders()
    ensures TotalPreorder(CreatedNoEarlier) && TotalPreorder(DatedNoLater)
  {
  }

  /** The events, newest first. */
  function NewestFirst(events: seq<Event>): (r: seq<Event>)
    ensures SortedBy(r, CreatedNoEarlier) && multiset(r) == multiset(events)
  {
    OrdersAreTotalPreorders();
    SortBy(events, CreatedNoEarlier)
  }

  /** The events, earliest date first. */
  function EarliestFirst(events: seq<Event>): (r: seq<Event>)
    ensures SortedBy(r, DatedNoLater) && multiset(r) == multiset(events)
  {
    OrdersAreTotalPreorders();
    SortBy(events, DatedNoLater)
  }

  function IsPublic(e: Event): bool {
    e.eventType == Public
  }

  function HasOrganizer(owner: ObjectId): Event -> bool {
    (e: Event) => e.organizer == owner
  }

  /** find({ type: "public" }) */
  function PublicEvents(events: seq<Event>): (r: seq<Event>)
    ensures forall e :: e in r <==> e in events && e.eventType == Public
  {
    FilterMembers(events, IsPublic);
    Filter(events, IsPublic)
  }

  /** find({ organizer: owner }) */
  function EventsOf(events: seq<Event>, owner: ObjectId): (r: seq<Event>)
    ensures forall e :: e in r <==> e in events && e.organizer == owner
  {
    FilterMembers(events, HasOrganizer(owner));
    Filter(events, HasOrganizer(owner))
  }

  /** find({ organizer: owner }).sort({ createdAt: -1 }): the owner's events, newest first. */
  function OwnEventsNewestFirst(events: seq<Event>, owner: ObjectId): (r: seq<Event>)
    ensures forall i, j :: 0 <= i < j < |r| ==> r[i].createdAt >= r[j].createdAt
    ensures forall e :: e in r <==> e in events && e.organizer == owner
  {
    var sorted := NewestFirst(EventsOf(events, owner));
    SameMembers(sorted, EventsOf(events, owner));
    sorted
  }

  /** A sorted listing holds exactly the events it sorted. */
  lemma SameMembers(r: seq<Event>, s: seq<Event>)
    requires multiset(r) == multiset(s)
    ensures forall e :: e in r <==> e in s
  {
    forall e ensures e in r <==> e in s {
      assert e in r <==> e in multiset(r);
      assert e in s <==> e in multiset(s);
    }
  }
}
