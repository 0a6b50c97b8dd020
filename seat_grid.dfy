/**
 * The floor plan of the seat monitor (src/components/seat-management/SeatGrid.tsx):
 * seats grouped by row, rows in the default string order, seats of a row by number.
 */
module SeatGrid {
  import opened Sorting
  import opened ClientTypes

  function RowIs(row: string): SeatView -> bool {
    (s: SeatView) => s.row == row
  }

  /** The seats of one row, in input order. */
  function OfRow(seats: seq<SeatView>, row: string): seq<SeatView> {
    Filter(seats, RowIs(row))
  }

  /** The distinct rows of the input. */
  function RowsOf(seats: seq<SeatView>): set<string> {
    set s | s in seats :: s.row
  }

  /** The comparator (a, b) => a.number - b.number, as an order. */
  predicate ByNumber(a: SeatView, b: SeatView) {
    a.number <= b.number
  }

  lemma ByNumberIsTotalPreorder()
    ensures TotalPreorder(ByNumber)
  {
  }

  /** Object.keys(...).sort(): the default order on strings. */
  function SortRows(rows: seq<string>): (r: seq<string>)
    ensures SortedBy(r, LexLeq) && multiset(r) == multiset(rows)
  {
    LexLeqIsTotalPreorder();
    SortBy(rows, LexLeq)
  }

  /** sort((a, b) => a.number - b.number) */
  function SortByNumber(seats: seq<SeatView>): (r: seq<SeatView>)
    ensures SortedBy(r, ByNumber) && multiset(r) == multiset(seats)
  {
    ByNumberIsTotalPreorder();
    SortBy(seats, ByNumber)
  }

  datatype RowGroup = RowGroup(row: string, seats: seq<SeatView>)

  function RowKeys(rows: seq<RowGroup>): seq<string> {
    MapSeq(rows, (g: RowGroup) => g.row)
  }

  function TotalSeats(rows: seq<RowGroup>): nat {
    if rows == [] then 0 else TotalSeats(rows[..|rows| - 1]) + |rows[|rows| - 1].seats|
  }

  /** The sizes of the rows named in keys, added up. */
  function RowSizes(seats: seq<SeatView>, keys: seq<string>): nat {
    if keys == [] then 0 else RowSizes(seats, keys[..|keys| - 1]) + |OfRow(seats, keys[|keys| - 1])|
  }

  lemma OfRowSnoc(seats: seq<SeatView>, x: SeatView, row: string)
    ensures OfRow(seats + [x], row) == OfRow(seats, row) + (if x.row == row then [x] else [])
  {
    assert (seats + [x])[..|seats + [x]| - 1] == seats;
  }

  /** byRow and keys hold exactly the rows of seats, each with its seats in input order. */
  ghost predicate Grouped(seats: seq<SeatView>, byRow: map<string, seq<SeatView>>, keys: seq<string>) {
    && byRow.Keys == RowsOf(seats)
    && (forall r :: r in byRow ==> byRow[r] == OfRow(seats, r))
    && Distinct(keys)
    && (forall r :: r in keys <==> r in byRow)
  }

  lemma NoSeatsGrouped()
    ensures Grouped([], map[], [])
  {
  }

  lemma RowsOfSnoc(seats: seq<SeatView>, x: SeatView)
    ensures RowsOf(seats + [x]) == RowsOf(seats) + {x.row}
  {
  }

  lemma {:induction false} AbsentRowEmpty(seats: seq<SeatView>, row: string)
    requires row !in RowsOf(seats)
    ensures OfRow(seats, row) == []
  {
    if seats != [] {
      var init, x := seats[..|seats| - 1], seats[|seats| - 1];
      assert seats == init + [x];
      RowsOfSnoc(init, x);
      AbsentRowEmpty(init, row);
      FilterSnoc(init, x, RowIs(row));
    }
  }

  /** One step of the loop: pushing x onto its row keeps the grouping exact. */
  lemma GroupedSnoc(seats: seq<SeatView>, x: SeatView,
                    byRow: map<string, seq<SeatView>>, keys: seq<string>,
                    byRow': map<string, seq<SeatView>>, keys': seq<string>)
    requires Grouped(seats, byRow, keys)
    requires byRow' == byRow[x.row := (if x.row in byRow then byRow[x.row] else []) + [x]]
    requires keys' == if x.row in byRow then keys else keys + [x.row]
    ensures Grouped(seats + [x], byRow', keys')
  {
    assert byRow'.Keys == RowsOf(seats + [x]) by {
      RowsOfSnoc(seats, x);
    }
    forall r | r in byRow' ensures byRow'[r] == OfRow(seats + [x], r) {
      OfRowSnoc(seats, x, r);
      if r == x.row && x.row !in byRow {
        AbsentRowEmpty(seats, x.row);
      }
    }
    assert Distinct(keys') by {
      if x.row !in byRow {
        DistinctSnoc(keys, x.row);
      }
    }
  }

  lemma GroupedStep(seats: seq<SeatView>, i: nat,
                    byRow: map<string, seq<SeatView>>, keys: seq<string>,
                    byRow': map<string, seq<SeatView>>, keys': seq<string>)
    requires i < |seats| && Grouped(seats[..i], byRow, keys)
    requires byRow' == byRow[seats[i].row := (if seats[i].row in byRow then byRow[seats[i].row] else []) + [seats[i]]]
    requires keys' == if seats[i].row in byRow then keys else keys + [seats[i].row]
    ensures Grouped(seats[..i + 1], byRow', keys')
  {
    assert seats[..i + 1] == seats[..i] + [seats[i]];
    GroupedSnoc(seats[..i], seats[i], byRow, keys, byRow', keys');
  }

  lemma DistinctSnoc<T>(s: seq<T>, x: T)
    requires Distinct(s) && x !in s
    ensures Distinct(s + [x])
  {
  }

  /**
   * The forEach loop that pushes every seat onto seatsByRow[seat.row], creating the
   * entry on first sight; keys records the order in which rows were first seen.
   */
  method GroupByRow(seats: seq<SeatView>) returns (byRow: map<string, seq<SeatView>>, keys: seq<string>)
    ensures Grouped(seats, byRow, keys)
  {
    byRow, keys := map[], [];
    NoSeatsGrouped();
    var i := 0;
    while i < |seats|
      invariant 0 <= i <= |seats|
      invariant Grouped(seats[..i], byRow, keys)
    {
      var seat := seats[i];
      ghost var byRow0, keys0 := byRow, keys;
      if seat.row !in byRow {
        byRow := byRow[seat.row := []];
        keys := keys + [seat.row];
      }
      byRow := byRow[seat.row := byRow[seat.row] + [seat]];
      GroupedStep(seats, i, byRow0, keys0, byRow, keys);
      i := i + 1;
    }
    assert seats[..i] == seats;
  }

  /**
   * The rows as the grid draws them: Object.keys(seatsByRow).sort(), and each row's
   * seats sorted by number.
   */
  method Layout(seats: seq<SeatView>) returns (rows: seq<RowGroup>)
    ensures forall i, j :: 0 <= i < j < |rows| ==> LexLeq(rows[i].row, rows[j].row) && rows[i].row != rows[j].row
    ensures forall r :: r in RowKeys(rows) <==> r in RowsOf(seats)
    ensures forall i :: 0 <= i < |rows| ==>
      && SortedBy(rows[i].seats, ByNumber)
      && multiset(rows[i].seats) == multiset(OfRow(seats, rows[i].row))
    ensures TotalSeats(rows) == |seats|
  {
    var byRow, keys := GroupByRow(seats);
    var sortedRows := SortRows(keys);
    assert forall k :: k in sortedRows ==> k in byRow by {
      assert forall k :: k in sortedRows <==> k in multiset(keys);
    }
    rows := Arrange(byRow, sortedRows);
    ArrangeFacts(seats, byRow, keys, sortedRows);
  }

  /** The drawn rows: each key in the given order, with its seats sorted by number. */
  function Arrange(byRow: map<string, seq<SeatView>>, sortedRows: seq<string>): (rows: seq<RowGroup>)
    requires forall k :: k in sortedRows ==> k in byRow
    ensures RowKeys(rows) == sortedRows
    ensures forall i :: 0 <= i < |rows| ==>
      && SortedBy(rows[i].seats, ByNumber)
      && multiset(rows[i].seats) == multiset(byRow[rows[i].row])
  {
    var rows := seq(|sortedRows|, k requires 0 <= k < |sortedRows| =>
      RowGroup(sortedRows[k], SortByNumber(byRow[sortedRows[k]])));
    assert RowKeys(rows) == sortedRows;
    rows
  }

  lemma ArrangeFacts(seats: seq<SeatView>, byRow: map<string, seq<SeatView>>, keys: seq<string>, sortedRows: seq<string>)
    requires Grouped(seats, byRow, keys)
    requires SortedBy(sortedRows, LexLeq) && multiset(sortedRows) == multiset(keys)
    requires forall k :: k in sortedRows ==> k in byRow
    ensures var rows := Arrange(byRow, sortedRows);
      && (forall i, j :: 0 <= i < j < |rows| ==> LexLeq(rows[i].row, rows[j].row) && rows[i].row != rows[j].row)
      && (forall r :: r in RowKeys(rows) <==> r in RowsOf(seats))
      && (forall i :: 0 <= i < |rows| ==> multiset(rows[i].seats) == multiset(OfRow(seats, rows[i].row)))
      && TotalSeats(rows) == |seats|
  {
    var rows := Arrange(byRow, sortedRows);
    SortedKeysFacts(keys, sortedRows);
    forall i | 0 <= i < |rows|
      ensures multiset(rows[i].seats) == multiset(OfRow(seats, rows[i].row))
    {
      assert byRow[rows[i].row] == OfRow(seats, rows[i].row);
    }
    forall s | s in seats ensures s.row in RowKeys(rows) {
      assert s.row in RowsOf(seats);
    }
    GroupsHoldAllSeats(seats, rows);
  }

  /** Sorting the distinct first-seen rows gives strictly ascending rows, the same ones. */
  lemma SortedKeysFacts(keys: seq<string>, sortedRows: seq<string>)
    requires Distinct(keys)
    requires SortedBy(sortedRows, LexLeq) && multiset(sortedRows) == multiset(keys)
    ensures forall i, j :: 0 <= i < j < |sortedRows| ==> LexLeq(sortedRows[i], sortedRows[j]) && sortedRows[i] != sortedRows[j]
    ensures Distinct(sortedRows)
    ensures forall r :: r in sortedRows <==> r in keys
  {
    DistinctPermutation(keys, sortedRows);
    SortedDistinctStrictly(sortedRows);
    forall r ensures r in sortedRows <==> r in keys {
      assert r in sortedRows <==> r in multiset(sortedRows);
    }
  }

  /** Groups holding the seats of distinct rows that cover every seat hold all the seats. */
  lemma GroupsHoldAllSeats(seats: seq<SeatView>, rows: seq<RowGroup>)
    requires Distinct(RowKeys(rows))
    requires forall s :: s in seats ==> s.row in RowKeys(rows)
    requires forall i :: 0 <= i < |rows| ==> |rows[i].seats| == |OfRow(seats, rows[i].row)|
    ensures TotalSeats(rows) == |seats|
  {
    SizesMatchKeys(seats, rows);
    RowsPartitionSeats(seats, RowKeys(rows));
  }

  lemma {:induction false} SizesMatchKeys(seats: seq<SeatView>, rows: seq<RowGroup>)
    requires forall i :: 0 <= i < |rows| ==> |rows[i].seats| == |OfRow(seats, rows[i].row)|
    ensures TotalSeats(rows) == RowSizes(seats, RowKeys(rows))
  {
    if rows != [] {
      var init := rows[..|rows| - 1];
      SizesMatchKeys(seats, init);
      assert RowKeys(rows)[..|rows| - 1] == RowKeys(init);
    }
  }

  /** Rows named once each, covering every seat's row, hold all the seats between them. */
  lemma {:induction false} RowsPartitionSeats(seats: seq<SeatView>, keys: seq<string>)
    requires Distinct(keys)
    requires forall s :: s in seats ==> s.row in keys
    ensures RowSizes(seats, keys) == |seats|
  {
    if seats == [] {
      NoSeatsNoSizes(keys);
    } else {
      var init, x := seats[..|seats| - 1], seats[|seats| - 1];
      assert seats == init + [x];
      RowsPartitionSeats(init, keys);
      RowSizesSnoc(init, x, keys);
      OccursOnce(keys, x.row);
    }
  }

  lemma {:induction false} NoSeatsNoSizes(keys: seq<string>)
    ensures RowSizes([], keys) == 0
  {
    if keys != [] {
      NoSeatsNoSizes(keys[..|keys| - 1]);
    }
  }

  /** The number of positions of keys that hold row. */
  function Occurrences(keys: seq<string>, row: string): nat {
    if keys == [] then 0 else Occurrences(keys[..|keys| - 1], row) + (if keys[|keys| - 1] == row then 1 else 0)
  }

  lemma {:induction false} RowSizesSnoc(seats: seq<SeatView>, x: SeatView, keys: seq<string>)
    ensures RowSizes(seats + [x], keys) == RowSizes(seats, keys) + Occurrences(keys, x.row)
  {
    if keys != [] {
      RowSizesSnoc(seats, x, keys[..|keys| - 1]);
      OfRowSnoc(seats, x, keys[|keys| - 1]);
    }
  }

  lemma {:induction false} OccursOnce(keys: seq<string>, row: string)
    requires Distinct(keys) && row in keys
    ensures Occurrences(keys, row) == 1
  {
    var init := keys[..|keys| - 1];
    assert keys == init + [keys[|keys| - 1]];
    if keys[|keys| - 1] == row {
      NotOccurring(init, row);
    } else {
      OccursOnce(init, row);
    }
  }

  lemma {:induction false} NotOccurring(keys: seq<string>, row: string)
    requires row !in keys
    ensures Occurrences(keys, row) == 0
  {
    if keys != [] {
      NotOccurring(keys[..|keys| - 1], row);
    }
  }
}
