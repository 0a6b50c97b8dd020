/**
 * The per-row seat count of a stage layout (getSeatsForRow in src/lib/actions/stage.ts).
 * JavaScript numbers are modelled as exact reals; the row index, the row count and the
 * base count are integers.
 */
module StageLayout {
  import opened JsNumbers

  /** The stage shapes of src/lib/types/index.ts, plus any other string a caller passes. */
  datatype StageShape =
    | Rectangle
    | Thrust
    | Semicircle
    | Diamond
    | Amphitheater
    | Unrecognised(name: string)

  /** The shapes handled by a curve rather than by the unchanged base count. */
  predicate IsCurved(shape: StageShape) {
    !(shape.Rectangle? || shape.Unrecognised?)
  }

  /** How far down the rows rowIndex is: 0 on the first row, 1 on the last. */
  function Ratio(rowIndex: int, totalRows: int): real {
    rowIndex as real / Max(totalRows - 1, 1) as real
  }

  /**
   * getSeatsForRow: the base count for a rectangle or an unrecognised shape, otherwise
   * the base count scaled by the shape's multiplier at this row, rounded, and at least 2.
   */
  function SeatsForRow(rowIndex: int, totalRows: int, baseSeatsPerRow: int, shape: StageShape): (n: int)
    ensures !IsCurved(shape) ==> n == baseSeatsPerRow
    ensures IsCurved(shape) ==> n >= 2
  {
    match shape
    case Rectangle => baseSeatsPerRow
    case Unrecognised(_) => baseSeatsPerRow
    case _ => ScaledSeats(baseSeatsPerRow, Multiplier(shape, Ratio(rowIndex, totalRows)))
  }

  /** A curved row: the base count scaled by a factor, rounded, and at least 2. */
  function ScaledSeats(base: int, factor: real): int {
    Max(2, Round(base as real * factor))
  }

  /**
   * The factor a curved shape applies to the base count at a given ratio: thrust
   * 0.4 + 0.6r, semicircle 0.5 + 0.5r, diamond 0.3 + 0.7(1 - 2|r - 0.5|), amphitheater
   * 0.5 + 0.5(1 - r).
   */
  function Multiplier(shape: StageShape, ratio: real): real
    requires IsCurved(shape)
  {
    match shape
    case Thrust => 0.4 + 0.6 * ratio
    case Semicircle => 0.5 + 0.5 * ratio
    case Diamond =>
      var midRatio := 1.0 - AbsReal(ratio - 0.5) * 2.0;
      0.3 + 0.7 * midRatio
    case Amphitheater => 0.5 + 0.5 * (1.0 - ratio)
  }

  /** A row inside the layout has a ratio between 0 and 1. */
  lemma RatioInUnitInterval(rowIndex: int, totalRows: int)
    requires 0 <= rowIndex <= totalRows - 1
    ensures 0.0 <= Ratio(rowIndex, totalRows) <= 1.0
  {
    var d := Max(totalRows - 1, 1) as real;
    assert Ratio(rowIndex, totalRows) * d == rowIndex as real;
  }

  lemma RatioMonotone(i: int, j: int, totalRows: int)
    requires i <= j
    ensures Ratio(i, totalRows) <= Ratio(j, totalRows)
  {
    var d := Max(totalRows - 1, 1) as real;
    assert Ratio(j, totalRows) - Ratio(i, totalRows) == (j - i) as real / d;
  }

  lemma DivTimes(d: real, x: real)
    requires d > 0.0
    ensures (x / d) * d == x
  {
  }

  lemma CancelFactor(a: real, b: real, d: real)
    requires d > 0.0 && a * d == b * d
    ensures a == b
  {
    assert (a - b) * d == 0.0;
  }

  lemma DivSplit(d: real, x: real)
    requires d > 0.0
    ensures (d - x) / d == 1.0 - x / d
  {
    DivTimes(d, d - x);
    DivTimes(d, x);
    assert (1.0 - x / d) * d == d - x;
    CancelFactor((d - x) / d, 1.0 - x / d, d);
  }

  lemma DivSelf(d: real)
    requires d > 0.0
    ensures d / d == 1.0
  {
    DivTimes(d, d);
    CancelFactor(d / d, 1.0, d);
  }

  lemma ScaleMonotone(base: int, m1: real, m2: real)
    requires base >= 0 && m1 <= m2
    ensures base as real * m1 <= base as real * m2
  {
    assert base as real * m2 - base as real * m1 == base as real * (m2 - m1);
  }

  lemma MultiplierAtMostOne(shape: StageShape, ratio: real)
    requires IsCurved(shape) && 0.0 <= ratio <= 1.0
    ensures 0.0 <= Multiplier(shape, ratio) <= 1.0
  {
  }

  /**
   * No row of the layout gets more than max(2, base) seats: every multiplier
   * is at most 1 on rows 0 .. totalRows - 1.
   */
  lemma SeatsForRowAtMost(rowIndex: int, totalRows: int, base: int, shape: StageShape)
    requires base >= 0 && 0 <= rowIndex <= totalRows - 1
    ensures SeatsForRow(rowIndex, totalRows, base, shape) <= Max(2, base)
  {
    if IsCurved(shape) {
      var ratio := Ratio(rowIndex, totalRows);
      RatioInUnitInterval(rowIndex, totalRows);
      MultiplierAtMostOne(shape, ratio);
      ScaledRoundAtMost(base, Multiplier(shape, ratio));
    }
  }

  lemma ScaledRoundAtMost(base: int, m: real)
    requires base >= 0 && 0.0 <= m <= 1.0
    ensures Round(base as real * m) <= base
  {
    ScaleMonotone(base, m, 1.0);
    RoundMonotone(base as real * m, base as real);
    RoundOfInteger(base);
  }

  /** A larger factor never gives fewer seats. */
  lemma ScaledSeatsMonotone(base: int, m1: real, m2: real)
    requires base >= 0 && m1 <= m2
    ensures ScaledSeats(base, m1) <= ScaledSeats(base, m2)
  {
    ScaleMonotone(base, m1, m2);
    RoundMonotone(base as real * m1, base as real * m2);
  }

  /** A curved shape gives at least as many seats to a row where its multiplier is at least as large. */
  lemma CountFollowsMultiplier(i: int, j: int, totalRows: int, base: int, shape: StageShape)
    requires IsCurved(shape) && base >= 0
    requires Multiplier(shape, Ratio(i, totalRows)) <= Multiplier(shape, Ratio(j, totalRows))
    ensures SeatsForRow(i, totalRows, base, shape) <= SeatsForRow(j, totalRows, base, shape)
  {
    ScaledSeatsMonotone(base, Multiplier(shape, Ratio(i, totalRows)), Multiplier(shape, Ratio(j, totalRows)));
  }

  /** Thrust and semicircle layouts widen towards the back. */
  lemma WidensTowardsBack(i: int, j: int, totalRows: int, base: int, shape: StageShape)
    requires shape == Thrust || shape == Semicircle
    requires i <= j && base >= 0
    ensures SeatsForRow(i, totalRows, base, shape) <= SeatsForRow(j, totalRows, base, shape)
  {
    RatioMonotone(i, j, totalRows);
    CountFollowsMultiplier(i, j, totalRows, base, shape);
  }

  /** An amphitheater narrows towards the back. */
  lemma AmphitheaterNarrowsTowardsBack(i: int, j: int, totalRows: int, base: int)
    requires i <= j && base >= 0
    ensures SeatsForRow(j, totalRows, base, Amphitheater) <= SeatsForRow(i, totalRows, base, Amphitheater)
  {
    RatioMonotone(i, j, totalRows);
    CountFollowsMultiplier(j, i, totalRows, base, Amphitheater);
  }

  /** A diamond is symmetric: row i and row totalRows - 1 - i get the same count. */
  lemma DiamondSymmetric(i: int, totalRows: int, base: int)
    requires 0 <= i < totalRows
    ensures SeatsForRow(i, totalRows, base, Diamond) == SeatsForRow(totalRows - 1 - i, totalRows, base, Diamond)
  {
    if totalRows >= 2 {
      var d := (totalRows - 1) as real;
      var r := Ratio(i, totalRows);
      assert Max(totalRows - 1, 1) == totalRows - 1;
      assert r == i as real / d;
      assert Ratio(totalRows - 1 - i, totalRows) == (d - i as real) / d;
      DivSplit(d, i as real);
      assert AbsReal((1.0 - r) - 0.5) == AbsReal(r - 0.5);
    }
  }

  /** With a single row the ratio of row 0 is 0, so a thrust row has max(2, round(0.4 * base)) seats. */
  lemma SingleRowThrust(base: int)
    ensures SeatsForRow(0, 1, base, Thrust) == Max(2, Round(base as real * 0.4))
  {
  }

  /** With two or more rows the back row of a thrust or semicircle, and the front row of an amphitheater, are full. */
  lemma FullRows(totalRows: int, base: int)
    requires totalRows >= 2
    ensures SeatsForRow(totalRows - 1, totalRows, base, Thrust) == Max(2, base)
    ensures SeatsForRow(totalRows - 1, totalRows, base, Semicircle) == Max(2, base)
    ensures SeatsForRow(0, totalRows, base, Amphitheater) == Max(2, base)
  {
    assert Max(totalRows - 1, 1) == totalRows - 1;
    DivSelf((totalRows - 1) as real);
    assert Ratio(totalRows - 1, totalRows) == 1.0;
    assert Ratio(0, totalRows) == 0.0;
    RoundOfInteger(base);
  }
}
