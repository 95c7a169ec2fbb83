/**
 * Win detection (`calculateWinner`): scan the eight three-in-a-row lines in
 * a fixed order — rows top to bottom, columns left to right, then the two
 * diagonals — and report the first line whose three cells hold the same
 * mark, together with that mark.
 */
module Winner {
  import opened Optional
  import opened Board

  /** Three cell indices forming one line of the board. */
  type Line = l: seq<Cell> | |l| == 3 witness [0, 1, 2]

  /** The eight lines in the order they are tried. */
  const Lines: seq<Line> := [
    [0, 1, 2], [3, 4, 5], [6, 7, 8],
    [0, 3, 6], [1, 4, 7], [2, 5, 8],
    [0, 4, 8], [2, 4, 6]
  ]

  /** The result of a win: the winning mark and the three winning cells. */
  datatype Win = Win(whoWins: Mark, winningSquares: Line)

  /** The three cells of `line` are equal and not empty. */
  predicate LineWins(b: Squares, line: Line) {
    b[line[0]] != Empty && b[line[0]] == b[line[1]] && b[line[0]] == b[line[2]]
  }

  /** Some line of the board is complete. */
  predicate HasWinningLine(b: Squares) {
    exists k :: 0 <= k < |Lines| && LineWins(b, Lines[k])
  }

  /** Line `k` is complete and no line tried before it is. */
  predicate IsFirstWinningLine(b: Squares, k: int) {
    && 0 <= k < |Lines|
    && LineWins(b, Lines[k])
    && forall j :: 0 <= j < k ==> !LineWins(b, Lines[j])
  }

  /** The scan from line `k` onwards. */
  function WinnerFrom(b: Squares, k: nat): Option<Win>
    requires k <= |Lines|
    decreases |Lines| - k
  {
    if k == |Lines| then None
    else if LineWins(b, Lines[k]) then Some(Win(b[Lines[k][0]], Lines[k]))
    else WinnerFrom(b, k + 1)
  }

  /** The scan from line `k` comes back empty exactly when no line at or after `k` is complete. */
  lemma {:induction false} WinnerFromNone(b: Squares, k: nat)
    requires k <= |Lines|
    ensures WinnerFrom(b, k).None? <==> forall j :: k <= j < |Lines| ==> !LineWins(b, Lines[j])
    decreases |Lines| - k
  {
    if k < |Lines| && !LineWins(b, Lines[k]) {
      WinnerFromNone(b, k + 1);
    }
  }

  /** A win found by the scan from line `k` is the first complete line at or after `k`. */
  lemma {:induction false} WinnerFromFirst(b: Squares, k: nat)
    requires k <= |Lines| && WinnerFrom(b, k).Some?
    ensures exists j :: k <= j < |Lines| && LineWins(b, Lines[j])
              && (forall i :: k <= i < j ==> !LineWins(b, Lines[i]))
              && WinnerFrom(b, k).value == Win(b[Lines[j][0]], Lines[j])
    decreases |Lines| - k
  {
    if LineWins(b, Lines[k]) {
      assert WinnerFrom(b, k).value == Win(b[Lines[k][0]], Lines[k]);
    } else {
      WinnerFromFirst(b, k + 1);
      var j :| k + 1 <= j < |Lines| && LineWins(b, Lines[j])
              && (forall i :: k + 1 <= i < j ==> !LineWins(b, Lines[i]))
              && WinnerFrom(b, k + 1).value == Win(b[Lines[j][0]], Lines[j]);
      assert forall i :: k <= i < j ==> !LineWins(b, Lines[i]);
    }
  }

  /**
   * `calculateWinner`: the first complete line in the fixed order with its
   * mark, or None when no line is complete.
   */
  function CalculateWinner(b: Squares): (r: Option<Win>)
    ensures r.None? <==> !HasWinningLine(b)
  {
    WinnerFromNone(b, 0);
    WinnerFrom(b, 0)
  }

  /** A reported win is the first complete line in the fixed order, with its mark. */
  lemma CalculateWinnerFindsFirst(b: Squares)
    requires CalculateWinner(b).Some?
    ensures exists k :: IsFirstWinningLine(b, k)
              && CalculateWinner(b).value == Win(b[Lines[k][0]], Lines[k])
  {
    WinnerFromFirst(b, 0);
  }

  /**
   * The scan as the source writes it: a loop over the line table that
   * returns at the first complete line.
   */
  method FindWinner(b: Squares) returns (r: Option<Win>)
    ensures r == CalculateWinner(b)
  {
    var i := 0;
    while i < |Lines|
      invariant 0 <= i <= |Lines|
      invariant WinnerFrom(b, i) == WinnerFrom(b, 0)
    {
      var line := Lines[i];
      var a, b1, c := line[0], line[1], line[2];
      if b[a] != Empty && b[a] == b[b1] && b[a] == b[c] {
        assert line == [a, b1, c];
        return Some(Win(b[a], [a, b1, c]));
      }
      i := i + 1;
    }
    return None;
  }

  /**
   * A reported win names one of the eight lines, its mark is X or O, and
   * all three of its cells hold that mark.
   */
  lemma WinnerSound(b: Squares)
    requires CalculateWinner(b).Some?
    ensures CalculateWinner(b).value.winningSquares in Lines
    ensures CalculateWinner(b).value.whoWins in {X, O}
    ensures forall t :: t in CalculateWinner(b).value.winningSquares ==>
              b[t] == CalculateWinner(b).value.whoWins
  {
    CalculateWinnerFindsFirst(b);
  }

  /** The detector agrees with the first-complete-line definition, in both directions. */
  lemma WinnerIsFirstLine(b: Squares, k: int)
    requires 0 <= k < |Lines|
    ensures IsFirstWinningLine(b, k) <==> CalculateWinner(b) == Some(Win(b[Lines[k][0]], Lines[k]))
  {
    var r := CalculateWinner(b);
    if r.Some? {
      CalculateWinnerFindsFirst(b);
    }
    if IsFirstWinningLine(b, k) {
      var j :| IsFirstWinningLine(b, j) && r.value == Win(b[Lines[j][0]], Lines[j]);
      assert j == k;
    }
    if r == Some(Win(b[Lines[k][0]], Lines[k])) {
      var j :| IsFirstWinningLine(b, j) && r.value == Win(b[Lines[j][0]], Lines[j]);
      assert Lines[j] == Lines[k];
    }
  }

  /** The board holding `m` on line `k` and nothing else. */
  function OneLineBoard(k: int, m: Mark): (b: Squares)
    requires 0 <= k < |Lines|
  {
    var l := Lines[k];
    EmptyBoard[l[0] := m][l[1] := m][l[2] := m]
  }

  /** A board with only line `k` filled with X wins for X on exactly that line. */
  lemma SingleLineWins(k: int)
    requires 0 <= k < |Lines|
    ensures CalculateWinner(OneLineBoard(k, X)) == Some(Win(X, Lines[k]))
  {
    var b := OneLineBoard(k, X);
    assert LineWins(b, Lines[k]);
    forall j | 0 <= j < k
      ensures !LineWins(b, Lines[j])
    {
    }
    assert IsFirstWinningLine(b, k);
    WinnerIsFirstLine(b, k);
  }

  /** A complete line needs three marks of one player: with at most two of each, nobody has won. */
  lemma FewMarksNoWinner(b: Squares)
    requires Count(b, X) < 3 && Count(b, O) < 3
    ensures !HasWinningLine(b)
  {
    if HasWinningLine(b) {
      var k :| 0 <= k < |Lines| && LineWins(b, Lines[k]);
      var l := Lines[k];
      assert l[0] != l[1] && l[1] != l[2] && l[0] != l[2];
      CountAtLeastThree(b, l[0], l[1], l[2], b[l[0]]);
    }
  }

  /** Every line of the board, written out: none of the eight is complete. */
  predicate AllLinesOpen(b: Squares) {
    && !LineWins(b, [0, 1, 2]) && !LineWins(b, [3, 4, 5]) && !LineWins(b, [6, 7, 8])
    && !LineWins(b, [0, 3, 6]) && !LineWins(b, [1, 4, 7]) && !LineWins(b, [2, 5, 8])
    && !LineWins(b, [0, 4, 8]) && !LineWins(b, [2, 4, 6])
  }

  /** Checking the eight lines one by one decides whether the board has a winning line. */
  lemma AllLinesOpenIffNoWinner(b: Squares)
    ensures AllLinesOpen(b) <==> !HasWinningLine(b)
  {
    if AllLinesOpen(b) {
      forall k | 0 <= k < |Lines|
        ensures !LineWins(b, Lines[k])
      {
        assert k in {0, 1, 2, 3, 4, 5, 6, 7};
      }
    } else {
      var k :| k in {0, 1, 2, 3, 4, 5, 6, 7} && LineWins(b, Lines[k]);
    }
  }
}
