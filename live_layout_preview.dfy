/**
 * The live preview of a layout being set up (src/components/stage/LiveLayoutPreview.tsx):
 * one letter-labelled row per requested row, each showing getSeatsForRow cells.
 */
module LiveLayoutPreview {
  import opened JsNumbers
  import opened StageLayout

  /** String.fromCharCode reduces its argument to a 16-bit code unit. */
  function RowLabelCode(i: nat): (c: int)
    ensures 0 <= c < 0x1_0000
  {
    (65 + i) % 0x1_0000
  }

  /** The label code units, one per row, in row order. */
  function RowLabels(rows: int): (labels: seq<int>)
    ensures |labels| == ArrayLength(rows)
  {
    seq(ArrayLength(rows), (i: nat) => RowLabelCode(i))
  }

  /** The number of cells drawn in each row of the preview. */
  function RowCells(rows: int, seatsPerRow: int, shape: StageShape): (cells: seq<nat>)
    ensures |cells| == |RowLabels(rows)|
  {
    seq(ArrayLength(rows), (i: nat) => ArrayLength(SeatsForRow(i, rows, seatsPerRow, shape)))
  }

  function Sum(s: seq<nat>): nat {
    if s == [] then 0 else Sum(s[..|s| - 1]) + s[|s| - 1]
  }

  /** Row i is labelled with code 65 + i ('A', 'B', ...) as long as there is no 16-bit wrap-around. */
  lemma LabelsAreLetterCodes(rows: int)
    requires rows <= 0x1_0000 - 65
    ensures forall i :: 0 <= i < |RowLabels(rows)| ==> RowLabels(rows)[i] == 65 + i
  {
  }

  /** Below the wrap-around the labels strictly increase, so no two rows share a label. */
  lemma LabelsStrictlyIncrease(rows: int)
    requires rows <= 0x1_0000 - 65
    ensures forall i, j :: 0 <= i < j < |RowLabels(rows)| ==> RowLabels(rows)[i] < RowLabels(rows)[j]
  {
    LabelsAreLetterCodes(rows);
  }

  /** The labels do not stop at 'Z' (code 90): row 26 gets '[' (code 91). */
  lemma NoWrapAfterZ()
    ensures RowLabelCode(25) == 90 && RowLabelCode(26) == 91
  {
  }

  /** Past 65471 rows the 16-bit reduction makes labels repeat. */
  lemma LabelsRepeatPastCodeUnitRange()
    ensures RowLabelCode(0x1_0000) == RowLabelCode(0)
  {
  }

  /** With a non-negative base count each row shows exactly getSeatsForRow cells. */
  lemma CellsFollowShape(rows: int, seatsPerRow: int, shape: StageShape)
    requires seatsPerRow >= 0
    ensures forall i :: 0 <= i < |RowCells(rows, seatsPerRow, shape)| ==>
      RowCells(rows, seatsPerRow, shape)[i] == SeatsForRow(i, rows, seatsPerRow, shape)
  {
  }

  /** A rectangle preview draws rows × seatsPerRow cells in all. */
  lemma RectangleTotal(rows: int, seatsPerRow: int)
    requires rows >= 0 && seatsPerRow >= 0
    ensures Sum(RowCells(rows, seatsPerRow, Rectangle)) == rows * seatsPerRow
  {
    ConstantSum(RowCells(rows, seatsPerRow, Rectangle), seatsPerRow);
  }

  lemma {:induction false} ConstantSum(s: seq<nat>, c: nat)
    requires forall i :: 0 <= i < |s| ==> s[i] == c
    ensures Sum(s) == |s| * c
  {
    if s != [] {
      ConstantSum(s[..|s| - 1], c);
    }
  }
}
