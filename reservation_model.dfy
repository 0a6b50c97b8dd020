/**
 * The reservation ledger (src/models/Reservation.ts): the status enum with its default,
 * the required references, and the unique index on seatId.
 */
module ReservationModel {
  import opened Wrappers
  import opened Ids
  import opened Documents

  datatype ReservationStatus = Pending | Confirmed

  function ReservationStatusName(s: ReservationStatus): string {
    match s
    case Pending => "pending"
    case Confirmed => "confirmed"
  }

  /** The enum rule of the status path. */
  function ParseReservationStatus(name: string): (r: Option<ReservationStatus>)
    ensures r.Some? <==> name == "pending" || name == "confirmed"
    ensures r.Some? ==> ReservationStatusName(r.value) == name
  {
    if name == "pending" then Some(Pending)
    else if name == "confirmed" then Some(Confirmed)
    else None
  }

  datatype Reservation = Reservation(
    id: ObjectId,
    userId: ObjectId,
    eventId: ObjectId,
    seatId: ObjectId,
    status: ReservationStatus,
    createdAt: Timestamp,
    updatedAt: Timestamp)

  datatype ReservationDraft = ReservationDraft(
    userId: Option<ObjectId>,
    eventId: Option<ObjectId>,
    seatId: Option<ObjectId>,
    status: Option<string>)

  /** A missing status defaults to "confirmed". */
  function DraftStatus(d: ReservationDraft): Option<ReservationStatus> {
    if d.status.None? then Some(Confirmed) else ParseReservationStatus(d.status.value)
  }

  function ReservationChecks(d: ReservationDraft): seq<Check> {
    [ Check("userId", d.userId.Some?),
      Check("eventId", d.eventId.Some?),
      Check("seatId", d.seatId.Some?),
      Check("status", DraftStatus(d).Some?) ]
  }

  /** Validation of a draft: the reservation it becomes, with the default status filled in. */
  function NewReservation(d: ReservationDraft, id: ObjectId, now: Timestamp): (r: Result<Reservation, DbError>)
    ensures r.Ok? <==>
      d.userId.Some? && d.eventId.Some? && d.seatId.Some? &&
      (d.status.None? || ParseReservationStatus(d.status.value).Some?)
    ensures r.Ok? ==>
      && r.value.id == id && r.value.userId == d.userId.value
      && r.value.eventId == d.eventId.value && r.value.seatId == d.seatId.value
      && (d.status.None? ==> r.value.status == Confirmed)
      && (d.status.Some? ==> ReservationStatusName(r.value.status) == d.status.value)
      && r.value.createdAt == now && r.value.updatedAt == now
    ensures r.Err? ==> r.error.ValidationFailed? && r.error.paths != []
  {
    var failing := Failing(ReservationChecks(d));
    if failing != [] then Err(ValidationFailed(failing))
    else
      assert ReservationChecks(d)[0].holds && ReservationChecks(d)[1].holds;
      assert ReservationChecks(d)[2].holds && ReservationChecks(d)[3].holds;
      Ok(Reservation(id, d.userId.value, d.eventId.value, d.seatId.value, DraftStatus(d).value, now, now))
  }

  const SeatIdIndex: string := "seatId_1"

  predicate SeatReserved(ledger: seq<Reservation>, seatId: ObjectId) {
    exists i :: 0 <= i < |ledger| && ledger[i].seatId == seatId
  }

  /** At most one reservation names any seat. */
  predicate OnePerSeat(ledger: seq<Reservation>) {
    forall i, j :: 0 <= i < j < |ledger| ==> ledger[i].seatId != ledger[j].seatId
  }

  /** Reservation.create against the ledger: validation first, then the unique index. */
  function TryInsert(ledger: seq<Reservation>, d: ReservationDraft, id: ObjectId, now: Timestamp): (r: Result<Reservation, DbError>)
    ensures r.Ok? <==> NewReservation(d, id, now).Ok? && !SeatReserved(ledger, d.seatId.value)
    ensures r.Ok? ==> r == NewReservation(d, id, now)
    ensures NewReservation(d, id, now).Ok? && SeatReserved(ledger, d.seatId.value) ==>
      r == Err(DuplicateKey(SeatIdIndex))
  {
    match NewReservation(d, id, now)
    case Err(e) => Err(e)
    case Ok(res) => if SeatReserved(ledger, res.seatId) then Err(DuplicateKey(SeatIdIndex)) else Ok(res)
  }

  /** A successful insert keeps one reservation per seat. */
  lemma InsertKeepsOnePerSeat(ledger: seq<Reservation>, d: ReservationDraft, id: ObjectId, now: Timestamp)
    requires OnePerSeat(ledger) && TryInsert(ledger, d, id, now).Ok?
    ensures OnePerSeat(ledger + [TryInsert(ledger, d, id, now).value])
  {
    var l' := ledger + [TryInsert(ledger, d, id, now).value];
    forall i, j | 0 <= i < j < |l'| ensures l'[i].seatId != l'[j].seatId {
      if j == |ledger| {
        assert l'[i] == ledger[i];
      }
    }
  }

  class ReservationLedger {
    var reservations: seq<Reservation>
    var nextId: ObjectId

    ghost predicate Valid()
      reads this
    {
      && OnePerSeat(reservations)
      && (forall i :: 0 <= i < |reservations| ==> reservations[i].id < nextId)
      && (forall i, j :: 0 <= i < j < |reservations| ==> reservations[i].id < reservations[j].id)
    }

    constructor()
      ensures Valid() && reservations == [] && nextId == 0
    {
      reservations, nextId := [], 0;
    }

    /** Reservation.create: an invalid draft, or one for a reserved seat, changes nothing. */
    method Insert(d: ReservationDraft, now: Timestamp) returns (r: Result<Reservation, DbError>)
      requires Valid()
      modifies this
      ensures Valid()
      ensures r == TryInsert(old(reservations), d, old(nextId), now)
      ensures r.Ok? ==> reservations == old(reservations) + [r.value] && nextId == old(nextId) + 1
      ensures r.Err? ==> reservations == old(reservations) && nextId == old(nextId)
    {
      r := TryInsert(reservations, d, nextId, now);
      if r.Ok? {
        InsertKeepsOnePerSeat(reservations, d, nextId, now);
        reservations := reservations + [r.value];
        nextId := nextId + 1;
      }
    }
  }
}
