/** The seat statistics of the seat monitor (src/components/seat-management/StatsBar.tsx). */
module StatsBar {
  import opened Wrappers
  import opened JsNumbers
  import opened Sorting
  import opened ClientTypes

  function StatusIs(status: string): SeatView -> bool {
    (s: SeatView) => s.status == Some(status)
  }

  /** seats.filter((s) => s.status === status) */
  function WithStatus(seats: seq<SeatView>, status: string): seq<SeatView> {
    Filter(seats, StatusIs(status))
  }

  /** The sum of the prices, added up from 0 as reduce does. */
  function SumPrices(seats: seq<SeatView>): real {
    if seats == [] then 0.0 else SumPrices(seats[..|seats| - 1]) + seats[|seats| - 1].price
  }

  datatype Summary = Summary(total: nat, reserved: nat, locked: nat, available: nat, revenue: real)

  function Summarise(seats: seq<SeatView>): (r: Summary)
    ensures r.total == |seats|
    ensures r.reserved <= r.total && r.locked <= r.total && r.available <= r.total
  {
    Summary(
      |seats|,
      |WithStatus(seats, "reserved")|,
      |WithStatus(seats, "locked")|,
      |WithStatus(seats, "available")|,
      Revenue(seats))
  }

  /** The summed price of the reserved seats. */
  function Revenue(seats: seq<SeatView>): real {
    SumPrices(WithStatus(seats, "reserved"))
  }

  /** The rounded percentage of n in total, or 0 when there are no seats. */
  function Pct(n: int, total: nat): (p: int)
    ensures total == 0 ==> p == 0
    ensures 0 <= n <= total ==> 0 <= p <= 100
  {
    if total > 0 then
      var q := n as real / total as real;
      assert q * total as real == n as real;
      Round(q * 100.0)
    else 0
  }

  lemma {:induction false} FilterSnoc(seats: seq<SeatView>, x: SeatView, status: string)
    ensures WithStatus(seats + [x], status)
         == WithStatus(seats, status) + (if x.status == Some(status) then [x] else [])
  {
    assert (seats + [x])[..|seats + [x]| - 1] == seats;
  }

  /** When every status is one of the three schema values, the three counts add up to the total. */
  lemma {:induction false} CountsPartitionSeats(seats: seq<SeatView>)
    requires forall s :: s in seats ==> IsKnownStatus(s.status)
    ensures var r := Summarise(seats); r.reserved + r.locked + r.available == r.total
  {
    if seats != [] {
      var init, x := seats[..|seats| - 1], seats[|seats| - 1];
      assert seats == init + [x];
      CountsPartitionSeats(init);
      FilterSnoc(init, x, "reserved");
      FilterSnoc(init, x, "locked");
      FilterSnoc(init, x, "available");
    }
  }

  lemma SumPricesSnoc(seats: seq<SeatView>, x: SeatView)
    ensures SumPrices(seats + [x]) == SumPrices(seats) + x.price
  {
    assert (seats + [x])[..|seats + [x]| - 1] == seats;
  }

  lemma RevenueSnoc(seats: seq<SeatView>, x: SeatView)
    ensures Revenue(seats + [x]) == Revenue(seats) + (if x.status == Some("reserved") then x.price else 0.0)
  {
    FilterSnoc(seats, x, "reserved");
    if x.status == Some("reserved") {
      SumPricesSnoc(WithStatus(seats, "reserved"), x);
    } else {
      assert WithStatus(seats + [x], "reserved") == WithStatus(seats, "reserved");
    }
  }

  /** Revenue ignores the price of every seat that is not reserved. */
  lemma {:induction false} RevenueIgnoresUnreserved(seats: seq<SeatView>, i: nat, price: real)
    requires i < |seats| && seats[i].status != Some("reserved")
    ensures Revenue(seats[i := seats[i].(price := price)]) == Revenue(seats)
  {
    var init, x := seats[..|seats| - 1], seats[|seats| - 1];
    var changed := seats[i := seats[i].(price := price)];
    assert seats == init + [x];
    if i == |seats| - 1 {
      var y := x.(price := price);
      assert changed == init + [y];
      assert Revenue(init + [y]) == Revenue(init) by { RevenueSnoc(init, y); }
      assert Revenue(init + [x]) == Revenue(init) by { RevenueSnoc(init, x); }
    } else {
      var init' := init[i := init[i].(price := price)];
      assert changed == init' + [x];
      assert Revenue(init') == Revenue(init) by { RevenueIgnoresUnreserved(init, i, price); }
      assert Revenue(init' + [x]) - Revenue(init') == Revenue(init + [x]) - Revenue(init) by {
        RevenueSnoc(init', x);
        RevenueSnoc(init, x);
      }
    }
  }

  /** Without reserved seats there is no revenue. */
  lemma NoReservationsNoRevenue(seats: seq<SeatView>)
    requires Summarise(seats).reserved == 0
    ensures Revenue(seats) == 0.0
  {
  }

  /** With non-negative prices the revenue lies between 0 and the price of all seats. */
  lemma {:induction false} RevenueBounded(seats: seq<SeatView>)
    requires forall s :: s in seats ==> s.price >= 0.0
    ensures 0.0 <= Revenue(seats) <= SumPrices(seats)
  {
    if seats != [] {
      var init, x := seats[..|seats| - 1], seats[|seats| - 1];
      assert seats == init + [x];
      RevenueBounded(init);
      RevenueSnoc(init, x);
      SumPricesSnoc(init, x);
    }
  }
}
