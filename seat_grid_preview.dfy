/**
 * The seat preview of the stage set-up page (src/components/stage/SeatGridPreview.tsx):
 * the same row grouping and ordering as the seat monitor's grid, a colour per seat
 * status, and the choice between the saved and the pending stage shape.
 */
module SeatGridPreview {
  import opened Wrappers
  import opened Sorting
  import opened ClientTypes
  import opened SeatGrid
  import opened StageLayout

  const ReservedColor: string := "bg-red-100 border-red-300 text-red-700"
  const LockedColor: string := "bg-amber-100 border-amber-300 text-amber-700"
  const AvailableColor: string := "bg-green-100 border-green-300 text-green-700"

  /** statusColor: red for "reserved", amber for "locked", green for every other string. */
  function StatusColor(status: string): (c: string)
    ensures c == ReservedColor <==> status == "reserved"
    ensures c == LockedColor <==> status == "locked"
    ensures c == AvailableColor <==> status != "reserved" && status != "locked"
  {
    if status == "reserved" then ReservedColor
    else if status == "locked" then LockedColor
    else AvailableColor
  }

  /** `seat.status ?? "available"`: a missing status reads as "available". */
  function EffectiveStatus(status: Option<string>): string {
    status.GetOr("available")
  }

  /** The colour of a seat's cell. */
  function CellColor(seat: SeatView): (c: string)
    ensures c == ReservedColor <==> seat.status == Some("reserved")
    ensures c == LockedColor <==> seat.status == Some("locked")
    ensures seat.status.None? ==> c == AvailableColor
  {
    StatusColor(EffectiveStatus(seat.status))
  }

  /** The shape handed to the stage drawing: the pending one while it is unsaved. */
  function DisplayShape(stageShape: StageShape, pendingShape: StageShape, shapeIsDirty: bool): (s: StageShape)
    ensures shapeIsDirty ==> s == pendingShape
    ensures !shapeIsDirty ==> s == stageShape
  {
    if shapeIsDirty then pendingShape else stageShape
  }

  /**
   * The drawn preview: the rows of the grid layout, and for every seat of every row the
   * colour of its cell.
   */
  method Preview(seats: seq<SeatView>) returns (rows: seq<RowGroup>, colors: seq<seq<string>>)
    ensures forall i, j :: 0 <= i < j < |rows| ==> LexLeq(rows[i].row, rows[j].row) && rows[i].row != rows[j].row
    ensures forall r :: r in RowKeys(rows) <==> r in RowsOf(seats)
    ensures forall i :: 0 <= i < |rows| ==>
      && SortedBy(rows[i].seats, ByNumber)
      && multiset(rows[i].seats) == multiset(OfRow(seats, rows[i].row))
    ensures TotalSeats(rows) == |seats|
    ensures |colors| == |rows|
    ensures forall i :: 0 <= i < |rows| ==>
      |colors[i]| == |rows[i].seats| &&
      forall k :: 0 <= k < |rows[i].seats| ==> colors[i][k] == CellColor(rows[i].seats[k])
  {
    rows := Layout(seats);
    colors := seq(|rows|, i requires 0 <= i < |rows| =>
      seq(|rows[i].seats|, k requires 0 <= k < |rows[i].seats| => CellColor(rows[i].seats[k])));
  }
}
