/**
 * The views `Game.render` derives from the state on every render: the
 * status line, the move-list labels and their display order, the sort
 * button's caption, and the cells the board highlights.
 */
module View {
  import opened Optional
  import opened Decimal
  import opened Board
  import opened Winner
  import opened Position
  import opened Game

  /** How a mark is written on screen. */
  function MarkText(m: Mark): string {
    match m
    case X => "X"
    case O => "O"
    case Empty => ""
  }

  const NextPlayerPrefix := "Next player: "

  /**
   * The status line: the winner if the displayed board has one, otherwise a
   * draw if no cell is empty, otherwise whose turn it is.
   */
  function Status(s: GameState): (r: string)
    requires WellFormed(s)
    ensures CalculateWinner(Current(s)).Some? ==>
              r == "Winner: " + MarkText(CalculateWinner(Current(s)).value.whoWins)
    ensures CalculateWinner(Current(s)).None? && Count(Current(s), Empty) == 0 ==>
              r == "Result is a draw!"
    ensures CalculateWinner(Current(s)).None? && Count(Current(s), Empty) > 0 ==>
              r == NextPlayerPrefix + MarkText(Player(s.xIsNext))
  {
    var winner := CalculateWinner(Current(s));
    if winner.Some? then
      "Winner: " + MarkText(winner.value.whoWins)
    else if Empty !in Current(s) then
      "Result is a draw!"
    else
      NextPlayerPrefix + (if s.xIsNext then "X" else "O")
  }

  predicate IsNextPlayerStatus(r: string) {
    |r| >= |NextPlayerPrefix| && r[..|NextPlayerPrefix|] == NextPlayerPrefix
  }

  /** A status line that does not start with 'N' does not announce a next player. */
  lemma NotNextPlayer(r: string)
    requires |r| > 0 && r[0] != 'N'
    ensures !IsNextPlayerStatus(r)
  {
  }

  /**
   * The status announces a next player exactly when some click would be
   * accepted, so "Winner" and "draw" both mean the game is over.
   */
  lemma StatusNextPlayerIffPlayable(s: GameState)
    requires WellFormed(s)
    ensures IsNextPlayerStatus(Status(s)) <==> exists i: Cell :: Accepts(s, i)
  {
    var b := Current(s);
    var r := Status(s);
    if CalculateWinner(b).Some? {
      assert r[0] == 'W';
      NotNextPlayer(r);
    } else if Count(b, Empty) == 0 {
      assert r[0] == 'R';
      NotNextPlayer(r);
      assert forall i: Cell :: !Accepts(s, i) by {
        assert Empty !in b;
      }
    } else {
      assert IsNextPlayerStatus(r);
      var i :| 0 <= i < 9 && b[i] == Empty;
      assert Accepts(s, i);
    }
  }

  /** In a reachable state a draw is announced only after all nine moves. */
  lemma DrawMeansNineMoves(s: GameState)
    requires Invariant(s)
    requires Status(s) == "Result is a draw!"
    ensures s.stepNumber == 9 && CalculateWinner(Current(s)).None?
  {
    FullIffNineMarks(Current(s));
    assert CountsAt(s.history[s.stepNumber].squares, s.stepNumber);
  }

  /** How `position` shows inside a template literal (`undefined` when absent). */
  function PositionText(p: Option<string>): string {
    match p
    case Some(text) => text
    case None => "undefined"
  }

  const MovePrefix := "Go to move #"
  const GameStart := "Go to game start"

  /**
   * The caption of move-list entry `move`: the start entry reads
   * "Go to game start", every other one "Go to move #<move>, position: <label>".
   */
  function MoveLabel(h: seq<Snapshot>, move: nat): (r: string)
    requires move < |h|
    ensures r == GameStart <==> move == 0
    ensures move > 0 ==> |r| > |MovePrefix| && r[..|MovePrefix|] == MovePrefix
  {
    if move == 0 then GameStart
    else
      var r := MovePrefix + DecimalString(move) + ", position: " + PositionText(h[move].position);
      assert r[6] == 'm' != GameStart[6];
      r
  }

  /** Different entries of the move list never share a caption. */
  lemma MoveLabelInjective(h: seq<Snapshot>, a: nat, b: nat)
    requires a < |h| && b < |h|
    ensures MoveLabel(h, a) == MoveLabel(h, b) <==> a == b
  {
    if a != b && MoveLabel(h, a) == MoveLabel(h, b) {
      if a != 0 && b != 0 {
        var p := ", position: " + PositionText(h[a].position);
        var q := ", position: " + PositionText(h[b].position);
        var u, v := DecimalString(a), DecimalString(b);
        assert MoveLabel(h, a) == MovePrefix + u + p;
        assert MoveLabel(h, b) == MovePrefix + v + q;
        assert MovePrefix + u + p == MovePrefix + (u + p);
        assert MovePrefix + v + q == MovePrefix + (v + q);
        assert u + p == (MovePrefix + (u + p))[|MovePrefix|..];
        assert v + q == (MovePrefix + (v + q))[|MovePrefix|..];
        DigitPrefixUnique(u, p, v, q);
        DecimalStringInjective(a, b);
      }
    }
  }

  /**
   * In a reachable state the caption of every move after the start names the
   * square that move marked: a square empty in the snapshot before and
   * holding the mover's mark in this one.
   */
  lemma CaptionNamesPlayedSquare(s: GameState, k: int)
    requires Invariant(s) && 0 < k < |s.history|
    ensures exists i: Cell ::
      && s.history[k - 1].squares[i] == Empty
      && s.history[k].squares[i] == MoverAt(k - 1)
      && MoveLabel(s.history, k) == MovePrefix + DecimalString(k) + ", position: " + PositionLabel(i)
  {
    assert MoveAt(s.history, k);
    var i: Cell :| s.history[k - 1].squares[i] == Empty
      && s.history[k].squares == s.history[k - 1].squares[i := MoverAt(k - 1)]
      && s.history[k].position == Some(PositionLabel(i));
    assert s.history[k].squares[i] == MoverAt(k - 1);
  }

  /** One entry of the move list: which step it jumps to, its caption, and whether it is bold. */
  datatype MoveEntry = MoveEntry(move: nat, caption: string, emphasized: bool)

  function Entry(s: GameState, move: nat): MoveEntry
    requires move < |s.history|
  {
    MoveEntry(move, MoveLabel(s.history, move), move == s.stepNumber)
  }

  /** A sequence in the opposite order. */
  function Reverse<T>(xs: seq<T>): (r: seq<T>)
    ensures |r| == |xs|
    ensures forall p :: 0 <= p < |xs| ==> r[p] == xs[|xs| - 1 - p]
  {
    if xs == [] then [] else Reverse(xs[1..]) + [xs[0]]
  }

  /** Reversing twice gives the sequence back. */
  lemma ReverseReverse<T>(xs: seq<T>)
    ensures Reverse(Reverse(xs)) == xs
  {
  }

  /**
   * The move list in the order it is displayed: history order, or the
   * opposite order when `reversed` is set.
   */
  function MoveList(s: GameState): (list: seq<MoveEntry>)
    ensures |list| == |s.history|
    ensures forall p :: 0 <= p < |list| ==>
              list[p] == Entry(s, if s.reversed then |list| - 1 - p else p)
  {
    var entries := seq(|s.history|, move requires 0 <= move < |s.history| => Entry(s, move));
    if s.reversed then Reverse(entries) else entries
  }

  /**
   * Every snapshot is listed exactly once, and exactly the entry for the
   * displayed step is emphasized.
   */
  lemma MoveListCoversHistory(s: GameState)
    requires WellFormed(s)
    ensures forall m :: 0 <= m < |s.history| ==> Entry(s, m) in MoveList(s)
    ensures forall p, q :: 0 <= p < q < |MoveList(s)| ==> MoveList(s)[p].move != MoveList(s)[q].move
    ensures forall p :: 0 <= p < |MoveList(s)| ==>
              (MoveList(s)[p].emphasized <==> MoveList(s)[p].move == s.stepNumber)
  {
    var list := MoveList(s);
    var n := |list|;
    forall m | 0 <= m < n
      ensures Entry(s, m) in list
    {
      var p := if s.reversed then n - 1 - m else m;
      assert list[p].move == m;
    }
  }

  /** The sort toggle shows the same entries in the opposite order. */
  lemma ToggleSortReversesList(s: GameState)
    ensures MoveList(ToggleSort(s)) == Reverse(MoveList(s))
  {
  }

  /** Toggling the sort order twice restores the list. */
  lemma ToggleSortTwiceRestoresList(s: GameState)
    ensures MoveList(ToggleSort(ToggleSort(s))) == MoveList(s)
  {
    ToggleSortReversesList(s);
    ToggleSortReversesList(ToggleSort(s));
    ReverseReverse(MoveList(s));
  }

  /** The caption of the sort button: it names the order the reversed flag selects. */
  function SortLabel(s: GameState): (r: string)
    ensures r == "Sort: Descending" <==> s.reversed
    ensures r == "Sort: Ascending" <==> !s.reversed
  {
    "Sort: " + (if s.reversed then "Descending" else "Ascending")
  }

  /**
   * The sort button names the order on display: "Descending" exactly when
   * later moves are listed first.
   */
  lemma SortLabelDescribesOrder(s: GameState)
    requires |s.history| >= 2
    ensures SortLabel(s) == "Sort: Descending" <==> MoveList(s)[0].move > MoveList(s)[1].move
  {
    if !s.reversed {
      assert SortLabel(s)[6] == 'A';
    }
  }

  /** The cells drawn highlighted: the first complete line, or none. */
  function WinningSquares(s: GameState): (r: seq<Cell>)
    requires WellFormed(s)
    ensures r == [] <==> !HasWinningLine(Current(s))
    ensures r != [] ==> r in Lines && forall t :: t in r ==> Current(s)[t] == Current(s)[r[0]] != Empty
    ensures r != [] ==> exists k :: IsFirstWinningLine(Current(s), k) && r == Lines[k]
  {
    var winner := CalculateWinner(Current(s));
    if winner.Some? then
      WinnerSound(Current(s));
      CalculateWinnerFindsFirst(Current(s));
      winner.value.winningSquares
    else
      []
  }
}
