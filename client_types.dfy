/** The client-side records of src/lib/types/index.ts. */
module ClientTypes {
  import opened Wrappers

  /**
   * A seat as the seats endpoint serialises it. The status is kept as the raw JSON
   * string, and may be missing: the components compare it with string literals.
   */
  datatype SeatView = SeatView(
    id: string,
    row: string,
    number: int,
    price: real,
    status: Option<string>,
    reservedBy: Option<string>)

  /** The three status values the seat schema allows. */
  predicate IsKnownStatus(status: Option<string>) {
    status == Some("available") || status == Some("locked") || status == Some("reserved")
  }
}
