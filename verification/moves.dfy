/**
 * Accepted clicks as steps of an event run: what one click at the head of
 * an event list does to the state and to the rest of the run.
 */
module Moves {
  import opened Board
  import opened Winner
  import opened Game
  import opened View
  import opened Replay

  /** The facts about a state at step `n` that the runs below carry from move to move. */
  predicate AtStep(s: GameState, n: nat) {
    && WellFormed(s)
    && s.stepNumber == n
    && s.xIsNext == (n % 2 == 0)
  }

  /**
   * No cell of the board is marked: `EmptyBoard` described cell by cell, so
   * that a run can start from a board the verifier does not unfold as a
   * literal (`BlankIsEmptyBoard` relates the two).
   */
  predicate Blank(b: Squares) {
    forall c: Cell :: b[c] == Empty
  }

  lemma BlankIsEmptyBoard(b: Squares)
    ensures Blank(b) <==> b == EmptyBoard
  {
    if Blank(b) {
      assert forall c: Cell :: b[c] == EmptyBoard[c];
    }
  }

  /**
   * One accepted click on cell `i` ahead of the events `rest`: the board
   * gains the mover's mark at `i`, the step advances, earlier snapshots are
   * kept, and the run continues with `rest` from the new state.
   */
  lemma Move(s: GameState, n: nat, i: Cell, rest: seq<Event>) returns (t: GameState)
    requires AtStep(s, n) && AllLinesOpen(Current(s)) && Current(s)[i] == Empty
    ensures AtStep(t, n + 1)
    ensures Current(t) == Current(s)[i := MoverAt(n)]
    ensures |t.history| == n + 2 && forall k :: 0 <= k <= n ==> t.history[k] == s.history[k]
    ensures Run(s, [Click(i)] + rest) == Run(t, rest)
  {
    var events := [Click(i)] + rest;
    AllLinesOpenIffNoWinner(Current(s));
    t := ClickSquare(s, i);
    RunClick(s, events);
    assert events[1..] == rest;
    assert Player(s.xIsNext) == MoverAt(n);
    assert Current(t) == Current(s)[i := MoverAt(n)];
    ParityFlips(n);
    assert t.stepNumber == n + 1;
  }

  /** A board whose top row is all X shows X as the winner, on cells 0, 1, 2, and takes no more moves. */
  lemma TopRowWinStatus(s: GameState)
    requires WellFormed(s) && Current(s)[0] == X && Current(s)[1] == X && Current(s)[2] == X
    ensures Status(s) == "Winner: X"
    ensures WinningSquares(s) == [0, 1, 2]
    ensures forall i: Cell, p: string :: HandleClick(s, i, p) == s
  {
    var b := Current(s);
    assert IsFirstWinningLine(b, 0);
    WinnerIsFirstLine(b, 0);
  }
}
