/**
 * Complete games played through the event interface: a win on the top
 * row, a full-board draw, and time travel followed by a divergent move.
 *
 * Each game is followed a few moves at a time from any state at step 0
 * showing a blank board `e`; the board after each move is written as `e`
 * with the marks placed so far.
 */
module Scenarios {
  import opened Optional
  import opened Board
  import opened Winner
  import opened Position
  import opened Game
  import opened View
  import opened Replay
  import opened Moves

  /** The labels the board hands out for the nine cells. */
  lemma LabelExamples()
    ensures PositionLabel(0) == "1x1" && PositionLabel(1) == "1x2" && PositionLabel(2) == "1x3"
    ensures PositionLabel(3) == "2x1" && PositionLabel(4) == "2x2" && PositionLabel(5) == "2x3"
    ensures PositionLabel(6) == "3x1" && PositionLabel(7) == "3x2" && PositionLabel(8) == "3x3"
  {
  }

  /** The game starts at step 0 with a blank board. */
  lemma InitIsBlank()
    ensures AtStep(Init(), 0) && Blank(Current(Init()))
  {
  }

  const TopRowGame: seq<Event> :=
    [Click(0), Click(4), Click(1), Click(7), Click(2)]

  /** No board of the top-row game before its last move has a complete line. */
  lemma TopRowBoardsOpen(e: Squares)
    requires Blank(e)
    ensures AllLinesOpen(e) && AllLinesOpen(e[0 := X]) && AllLinesOpen(e[0 := X][4 := O])
    ensures AllLinesOpen(e[0 := X][4 := O][1 := X])
    ensures AllLinesOpen(e[0 := X][4 := O][1 := X][7 := O])
  {
  }

  /** X in cells 0 and 1, O in the centre, whatever follows. */
  lemma TopRowOpening(s0: GameState, rest: seq<Event>) returns (s: GameState)
    requires AtStep(s0, 0) && Blank(Current(s0))
    ensures AtStep(s, 3)
    ensures Current(s) == Current(s0)[0 := X][4 := O][1 := X]
    ensures Run(s0, [Click(0), Click(4), Click(1)] + rest) == Run(s, rest)
  {
    var r2 := [Click(1)] + rest;
    var r1 := [Click(4)] + r2;
    assert [Click(0), Click(4), Click(1)] + rest == [Click(0)] + r1;
    TopRowBoardsOpen(Current(s0));
    var s1 := Move(s0, 0, 0, r1);
    var s2 := Move(s1, 1, 4, r2);
    s := Move(s2, 2, 1, rest);
  }

  /** The whole top-row game from any blank state at step 0. */
  lemma TopRowGameFrom(s0: GameState) returns (t: GameState)
    requires AtStep(s0, 0) && Blank(Current(s0))
    ensures Run(s0, TopRowGame) == Some(t)
    ensures Current(t)[0] == X && Current(t)[1] == X && Current(t)[2] == X
  {
    var r5: seq<Event> := [];
    var r4 := [Click(2)] + r5;
    var r3 := [Click(7)] + r4;
    var s3 := TopRowOpening(s0, r3);
    TopRowBoardsOpen(Current(s0));
    var s4 := Move(s3, 3, 7, r4);
    t := Move(s4, 4, 2, r5);
    assert TopRowGame == [Click(0), Click(4), Click(1)] + r3;
  }

  /**
   * X takes the top row against O in the centre and bottom middle: X wins on
   * cells 0, 1, 2, and a further click on cell 3 changes nothing.
   */
  lemma TopRowWin()
    ensures Run(Init(), TopRowGame).Some?
    ensures var t := Run(Init(), TopRowGame).value;
      && Status(t) == "Winner: X"
      && WinningSquares(t) == [0, 1, 2]
      && ClickSquare(t, 3) == t
  {
    InitIsBlank();
    var t := TopRowGameFrom(Init());
    TopRowWinStatus(t);
  }

  /** The drawn game: X 0, O 1, X 2, O 4, X 3, O 5, X 7, O 6, X 8. */
  const DrawGame: seq<Event> := [
    Click(0), Click(1), Click(2), Click(4), Click(3),
    Click(5), Click(7), Click(6), Click(8)
  ]

  /** The boards before the drawn game's first four moves have no complete line. */
  lemma EarlyDrawBoardsOpen(e: Squares)
    requires Blank(e)
    ensures AllLinesOpen(e) && AllLinesOpen(e[0 := X])
    ensures AllLinesOpen(e[0 := X][1 := O]) && AllLinesOpen(e[0 := X][1 := O][2 := X])
  {
  }

  /** The drawn game's first two moves. */
  lemma DrawTwoMoves(s0: GameState, rest: seq<Event>) returns (s: GameState)
    requires AtStep(s0, 0) && Blank(Current(s0))
    ensures AtStep(s, 2)
    ensures Current(s) == Current(s0)[0 := X][1 := O]
    ensures Run(s0, [Click(0), Click(1)] + rest) == Run(s, rest)
  {
    var r1 := [Click(1)] + rest;
    assert [Click(0), Click(1)] + rest == [Click(0)] + r1;
    EarlyDrawBoardsOpen(Current(s0));
    var s1 := Move(s0, 0, 0, r1);
    s := Move(s1, 1, 1, rest);
  }

  /** The drawn game's first four moves; they also open the time-travel game. */
  lemma DrawFourMoves(s0: GameState, rest: seq<Event>) returns (s: GameState)
    requires AtStep(s0, 0) && Blank(Current(s0))
    ensures AtStep(s, 4)
    ensures Current(s) == Current(s0)[0 := X][1 := O][2 := X][4 := O]
    ensures s.history[2].squares == Current(s0)[0 := X][1 := O]
    ensures Run(s0, [Click(0), Click(1), Click(2), Click(4)] + rest)
         == Run(s, rest)
  {
    var r3 := [Click(4)] + rest;
    var r2 := [Click(2)] + r3;
    assert [Click(0), Click(1), Click(2), Click(4)] + rest
        == [Click(0), Click(1)] + r2;
    EarlyDrawBoardsOpen(Current(s0));
    var s2 := DrawTwoMoves(s0, r2);
    var s3 := Move(s2, 2, 2, r3);
    s := Move(s3, 3, 4, rest);
    assert s.history[2] == s3.history[2];
  }

  /** The boards before moves five and six of the drawn game have no complete line. */
  lemma MiddleDrawBoardsOpen(e: Squares)
    requires Blank(e)
    ensures AllLinesOpen(e[0 := X][1 := O][2 := X][4 := O])
    ensures AllLinesOpen(e[0 := X][1 := O][2 := X][4 := O][3 := X])
  {
  }

  /** Moves five and six of the drawn game. */
  lemma DrawSixMoves(s0: GameState, rest: seq<Event>) returns (s: GameState)
    requires AtStep(s0, 0) && Blank(Current(s0))
    ensures AtStep(s, 6)
    ensures Current(s) == Current(s0)[0 := X][1 := O][2 := X][4 := O][3 := X][5 := O]
    ensures Run(s0, [
      Click(0), Click(1), Click(2), Click(4),
      Click(3), Click(5)
    ] + rest) == Run(s, rest)
  {
    var r5 := [Click(5)] + rest;
    var r4 := [Click(3)] + r5;
    assert [
      Click(0), Click(1), Click(2), Click(4),
      Click(3), Click(5)
    ] + rest == [Click(0), Click(1), Click(2), Click(4)] + r4;
    var s4 := DrawFourMoves(s0, r4);
    MiddleDrawBoardsOpen(Current(s0));
    var s5 := Move(s4, 4, 3, r5);
    s := Move(s5, 5, 5, rest);
  }

  /** The boards before moves seven, eight and nine of the drawn game have no complete line. */
  lemma LateDrawBoardsOpen(e: Squares)
    requires Blank(e)
    ensures AllLinesOpen(e[0 := X][1 := O][2 := X][4 := O][3 := X][5 := O])
    ensures AllLinesOpen(e[0 := X][1 := O][2 := X][4 := O][3 := X][5 := O][7 := X])
    ensures AllLinesOpen(e[0 := X][1 := O][2 := X][4 := O][3 := X][5 := O][7 := X][6 := O])
  {
  }

  /** Moves seven and eight of the drawn game. */
  lemma DrawEightMoves(s0: GameState, rest: seq<Event>) returns (s: GameState)
    requires AtStep(s0, 0) && Blank(Current(s0))
    ensures AtStep(s, 8)
    ensures Current(s) == Current(s0)[0 := X][1 := O][2 := X][4 := O][3 := X][5 := O][7 := X][6 := O]
    ensures Run(s0, [
      Click(0), Click(1), Click(2), Click(4),
      Click(3), Click(5), Click(7), Click(6)
    ] + rest) == Run(s, rest)
  {
    var r7 := [Click(6)] + rest;
    var r6 := [Click(7)] + r7;
    assert [
      Click(0), Click(1), Click(2), Click(4),
      Click(3), Click(5), Click(7), Click(6)
    ] + rest == [
      Click(0), Click(1), Click(2), Click(4),
      Click(3), Click(5)
    ] + r6;
    var s6 := DrawSixMoves(s0, r6);
    LateDrawBoardsOpen(Current(s0));
    var s7 := Move(s6, 6, 7, r7);
    s := Move(s7, 7, 6, rest);
  }

  const FullBoard: Squares := [X, O, X, X, O, O, O, X, X]

  /** The whole drawn game from any blank state at step 0. */
  lemma DrawGameFrom(s0: GameState) returns (t: GameState)
    requires AtStep(s0, 0) && Blank(Current(s0))
    ensures Run(s0, DrawGame) == Some(t)
    ensures WellFormed(t) && t.stepNumber == 9 && Current(t) == FullBoard
  {
    var s8 := DrawEightMoves(s0, [Click(8)]);
    LateDrawBoardsOpen(Current(s0));
    t := Move(s8, 8, 8, []);
    assert Current(t) == FullBoard;
    assert DrawGame == [
      Click(0), Click(1), Click(2), Click(4),
      Click(3), Click(5), Click(7), Click(6)
    ] + [Click(8)];
  }

  /** A state showing the full board reports a draw and takes no more moves. */
  lemma DrawStatus(s: GameState)
    requires WellFormed(s) && Current(s) == FullBoard
    ensures Status(s) == "Result is a draw!"
    ensures WinningSquares(s) == []
    ensures forall i: Cell, p: string :: HandleClick(s, i, p) == s
  {
    AllLinesOpenIffNoWinner(FullBoard);
    assert Empty !in FullBoard;
  }

  /**
   * Nine moves with no complete line: the board fills up, the status
   * reports a draw, and the game accepts no further click.
   */
  lemma FullBoardDraw()
    ensures Run(Init(), DrawGame).Some?
    ensures var t := Run(Init(), DrawGame).value;
      && Current(t) == FullBoard
      && t.stepNumber == 9
      && Status(t) == "Result is a draw!"
      && WinningSquares(t) == []
      && forall i: Cell, p: string :: HandleClick(t, i, p) == t
  {
    InitIsBlank();
    var t := DrawGameFrom(Init());
    DrawStatus(t);
  }

  const TimeTravelGame: seq<Event> := [
    Click(0), Click(1), Click(2), Click(4), Jump(2), Click(8)
  ]

  /** The whole time-travel game from any blank state at step 0. */
  lemma TimeTravelFrom(s0: GameState) returns (t: GameState)
    requires AtStep(s0, 0) && Blank(Current(s0))
    ensures Run(s0, TimeTravelGame) == Some(t)
    ensures WellFormed(t) && |t.history| == 4 && t.stepNumber == 3 && !t.xIsNext
    ensures Current(t) == Current(s0)[0 := X][1 := O][8 := X]
  {
    var r5: seq<Event> := [Click(8)];
    var r4 := [Jump(2)] + r5;
    var s4 := DrawFourMoves(s0, r4);
    RunJump(s4, r4);
    assert r4[1..] == r5;
    var j := JumpTo(s4, 2);
    EarlyDrawBoardsOpen(Current(s0));
    assert AtStep(j, 2);
    t := Move(j, 2, 8, []);
    assert TimeTravelGame
        == [Click(0), Click(1), Click(2), Click(4)] + r4;
  }

  /** After the divergent move, with cells still free and no line complete, O is to move. */
  lemma TimeTravelStatus(s: GameState)
    requires WellFormed(s) && !s.xIsNext && Current(s) == EmptyBoard[0 := X][1 := O][8 := X]
    ensures Status(s) == "Next player: O"
  {
    AllLinesOpenIffNoWinner(Current(s));
    assert Current(s)[3] == Empty;
  }

  /**
   * Four moves, a jump back to move 2, then a different third move: the
   * abandoned moves are gone, the new move is number 3, and O is next.
   */
  lemma TimeTravelTruncates()
    ensures Run(Init(), TimeTravelGame).Some?
    ensures var t := Run(Init(), TimeTravelGame).value;
      && |t.history| == 4
      && t.stepNumber == 3
      && Current(t) == EmptyBoard[0 := X][1 := O][8 := X]
      && Status(t) == "Next player: O"
  {
    InitIsBlank();
    var t := TimeTravelFrom(Init());
    TimeTravelStatus(t);
  }

  /**
   * A board on which both diagonals are complete: the highlight is the
   * main diagonal, the earlier of the two lines in the fixed order.
   */
  lemma DoubleDiagonalHighlightsFirst(s: GameState)
    requires WellFormed(s) && Current(s) == [X, O, X, O, X, O, X, O, X]
    ensures WinningSquares(s) == [0, 4, 8]
    ensures Status(s) == "Winner: X"
  {
    var b := Current(s);
    assert IsFirstWinningLine(b, 6);
    WinnerIsFirstLine(b, 6);
  }
}
