/**
 * The seat collection (src/models/Seat.ts): the status enum with its default, the
 * required paths, and the unique index on (eventId, row, number).
 */
module SeatModel {
  import opened Wrappers
  import opened Ids
  import opened Documents

  datatype SeatStatus = Available | Locked | Reserved

  function SeatStatusName(s: SeatStatus): string {
    match s
    case Available => "available"
    case Locked => "locked"
    case Reserved => "reserved"
  }

  /** The enum rule of the status path. */
  function ParseSeatStatus(name: string): (r: Option<SeatStatus>)
    ensures r.Some? <==> name == "available" || name == "locked" || name == "reserved"
    ensures r.Some? ==> SeatStatusName(r.value) == name
  {
    if name == "available" then Some(Available)
    else if name == "locked" then Some(Locked)
    else if name == "reserved" then Some(Reserved)
    else None
  }

  lemma SeatStatusRoundTrip(s: SeatStatus)
    ensures ParseSeatStatus(SeatStatusName(s)) == Some(s)
  {
  }

  /** A stored seat. */
  datatype Seat = Seat(
    id: ObjectId,
    eventId: ObjectId,
    row: string,
    number: int,
    price: real,
    status: SeatStatus,
    lockedBy: Option<ObjectId>,
    lockExpiresAt: Option<Timestamp>,
    createdAt: Timestamp,
    updatedAt: Timestamp)

  /** The fields a caller hands to Seat.create; any of them may be missing. */
  datatype SeatDraft = SeatDraft(
    eventId: Option<ObjectId>,
    row: Option<string>,
    number: Option<int>,
    price: Option<real>,
    status: Option<string>,
    lockedBy: Option<ObjectId>,
    lockExpiresAt: Option<Timestamp>)

  /** The status a missing value defaults to, or the parsed value. */
  function DraftStatus(d: SeatDraft): Option<SeatStatus> {
    if d.status.None? then Some(Available) else ParseSeatStatus(d.status.value)
  }

  function SeatChecks(d: SeatDraft): seq<Check> {
    [ Check("eventId", d.eventId.Some?),
      Check("row", PresentString(d.row)),
      Check("number", d.number.Some?),
      Check("price", d.price.Some?),
      Check("status", DraftStatus(d).Some?) ]
  }

  /** Validation of a draft: the seat it becomes, with the default status filled in. */
  function NewSeat(d: SeatDraft, id: ObjectId, now: Timestamp): (r: Result<Seat, DbError>)
    ensures r.Ok? <==>
      && d.eventId.Some? && PresentString(d.row) && d.number.Some? && d.price.Some?
      && (d.status.None? || ParseSeatStatus(d.status.value).Some?)
    ensures r.Ok? ==>
      && r.value.id == id && r.value.eventId == d.eventId.value && r.value.row == d.row.value
      && r.value.number == d.number.value && r.value.price == d.price.value
      && (d.status.None? ==> r.value.status == Available)
      && (d.status.Some? ==> SeatStatusName(r.value.status) == d.status.value)
      && r.value.lockedBy == d.lockedBy && r.value.lockExpiresAt == d.lockExpiresAt
      && r.value.createdAt == now && r.value.updatedAt == now
    ensures r.Err? ==> r.error.ValidationFailed? && r.error.paths != []
  {
    var failing := Failing(SeatChecks(d));
    if failing != [] then Err(ValidationFailed(failing))
    else
      assert SeatChecks(d)[0].holds && SeatChecks(d)[1].holds && SeatChecks(d)[2].holds;
      assert SeatChecks(d)[3].holds && SeatChecks(d)[4].holds;
      Ok(Seat(id, d.eventId.value, d.row.value, d.number.value, d.price.value,
              DraftStatus(d).value, d.lockedBy, d.lockExpiresAt, now, now))
  }

  /** The key of the unique index { eventId: 1, row: 1, number: 1 }. */
  datatype SeatKey = SeatKey(eventId: ObjectId, row: string, number: int)

  function KeyOf(s: Seat): SeatKey {
    SeatKey(s.eventId, s.row, s.number)
  }

  const SeatKeyIndex: string := "eventId_1_row_1_number_1"

  predicate KeyTaken(seats: seq<Seat>, k: SeatKey) {
    exists i :: 0 <= i < |seats| && KeyOf(seats[i]) == k
  }

  /** No two stored seats share (eventId, row, number). */
  predicate KeysUnique(seats: seq<Seat>) {
    forall i, j :: 0 <= i < j < |seats| ==> KeyOf(seats[i]) != KeyOf(seats[j])
  }

  /** Seat.create against the stored seats: validation first, then the unique index. */
  function TryInsert(seats: seq<Seat>, d: SeatDraft, id: ObjectId, now: Timestamp): (r: Result<Seat, DbError>)
    ensures r.Ok? <==> NewSeat(d, id, now).Ok? && !KeyTaken(seats, KeyOf(NewSeat(d, id, now).value))
    ensures r.Ok? ==> r == NewSeat(d, id, now)
    ensures NewSeat(d, id, now).Ok? && KeyTaken(seats, KeyOf(NewSeat(d, id, now).value)) ==>
      r == Err(DuplicateKey(SeatKeyIndex))
  {
    match NewSeat(d, id, now)
    case Err(e) => Err(e)
    case Ok(seat) => if KeyTaken(seats, KeyOf(seat)) then Err(DuplicateKey(SeatKeyIndex)) else Ok(seat)
  }

  /** A successful insert keeps the index unique. */
  lemma InsertKeepsKeysUnique(seats: seq<Seat>, d: SeatDraft, id: ObjectId, now: Timestamp)
    requires KeysUnique(seats) && TryInsert(seats, d, id, now).Ok?
    ensures KeysUnique(seats + [TryInsert(seats, d, id, now).value])
  {
    var seat := TryInsert(seats, d, id, now).value;
    var s' := seats + [seat];
    forall i, j | 0 <= i < j < |s'| ensures KeyOf(s'[i]) != KeyOf(s'[j]) {
      if j == |seats| {
        assert s'[i] == seats[i];
      }
    }
  }

  /** The store: the seats in insertion order and the next id to hand out. */
  class SeatStore {
    var seats: seq<Seat>
    var nextId: ObjectId

    ghost predicate Valid()
      reads this
    {
      && KeysUnique(seats)
      && (forall i :: 0 <= i < |seats| ==> seats[i].id < nextId)
      && (forall i, j :: 0 <= i < j < |seats| ==> seats[i].id < seats[j].id)
    }

    constructor()
      ensures Valid() && seats == [] && nextId == 0
    {
      seats, nextId := [], 0;
    }

    /** Seat.create: a stored duplicate of the key, or an invalid draft, changes nothing. */
    method Insert(d: SeatDraft, now: Timestamp) returns (r: Result<Seat, DbError>)
      requires Valid()
      modifies this
      ensures Valid()
      ensures r == TryInsert(old(seats), d, old(nextId), now)
      ensures r.Ok? ==> seats == old(seats) + [r.value] && nextId == old(nextId) + 1
      ensures r.Err? ==> seats == old(seats) && nextId == old(nextId)
    {
      r := TryInsert(seats, d, nextId, now);
      if r.Ok? {
        InsertKeepsKeysUnique(seats, d, nextId, now);
        seats := seats + [r.value];
        nextId := nextId + 1;
      }
    }
  }
}
