/**
 * Position labels as the board builds them (`Board.generateSquares`): the
 * cell in 0-based row `row` and column `col` has index `3 * row + col` and
 * label "<row+1>x<col+1>", so cell 0 is "1x1" and cell 8 is "3x3".
 */
module Position {
  import opened Optional
  import opened Decimal
  import opened Board

  /** The label the board attaches to the cell in row `row`, column `col`. */
  function Label(row: nat, col: nat): string {
    DecimalString(row + 1) + "x" + DecimalString(col + 1)
  }

  /** The label of cell `i` (row `i / 3`, column `i % 3`). */
  function PositionLabel(i: Cell): (s: string)
    ensures |s| == 3 && s[1] == 'x'
    ensures '1' <= s[0] <= '3' && '1' <= s[2] <= '3'
  {
    Label(i / 3, i % 3)
  }

  /** Reads a label back into the cell it names; None for anything else. */
  function ParsePosition(s: string): (r: Option<Cell>)
  {
    if |s| == 3 && s[1] == 'x' && '1' <= s[0] <= '3' && '1' <= s[2] <= '3'
    then Some(3 * (s[0] as int - '1' as int) + (s[2] as int - '1' as int))
    else None
  }

  /** Reading the label of a cell gives that cell back. */
  lemma ParseLabel(i: Cell)
    ensures ParsePosition(PositionLabel(i)) == Some(i)
  {
  }

  /** Every string that reads as a cell is that cell's label. */
  lemma LabelOfParse(s: string)
    requires ParsePosition(s).Some?
    ensures PositionLabel(ParsePosition(s).value) == s
  {
    var i := ParsePosition(s).value;
    var t := PositionLabel(i);
    assert t[0] == s[0] && t[1] == s[1] && t[2] == s[2];
  }

  /** Distinct cells carry distinct labels: the labelling is a bijection onto the nine labels. */
  lemma PositionLabelInjective(i: Cell, j: Cell)
    ensures PositionLabel(i) == PositionLabel(j) <==> i == j
  {
    ParseLabel(i);
    ParseLabel(j);
  }

  /** One board cell as handed to the click handler: its index and its label. */
  datatype Square = Square(index: Cell, position: string)

  /**
   * The nine cells in rendering order: three rows of three, each cell
   * paired with the index and label the click handler receives.
   */
  method GenerateSquares() returns (squares: seq<Square>)
    ensures |squares| == 9
    ensures forall k :: 0 <= k < 9 ==> squares[k] == Square(k, PositionLabel(k))
  {
    squares := [];
    for row := 0 to 3
      invariant |squares| == 3 * row
      invariant forall k :: 0 <= k < |squares| ==> squares[k] == Square(k, PositionLabel(k))
    {
      for col := 0 to 3
        invariant |squares| == 3 * row + col
        invariant forall k :: 0 <= k < |squares| ==> squares[k] == Square(k, PositionLabel(k))
      {
        squares := squares + [Square(3 * row + col, Label(row, col))];
      }
    }
  }
}
