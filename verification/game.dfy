/**
 * The game controller (`Game`): the history of board snapshots, the step
 * pointer into it, the turn flag and the display-order flag, with the three
 * transitions that change them — a board click, a jump in time, and the
 * sort toggle. Each transition is an atomic state-to-state function.
 */
module Game {
  import opened Optional
  import opened Board
  import opened Winner
  import opened Position

  /** One entry of the history: a board, and the label of the move that produced it. */
  datatype Snapshot = Snapshot(squares: Squares, position: Option<string>)

  datatype GameState = GameState(
    history: seq<Snapshot>,
    stepNumber: int,
    xIsNext: bool,
    reversed: bool
  )

  /** The first history entry: empty board, no position. */
  const StartSnapshot: Snapshot := Snapshot(EmptyBoard, None)

  /** The step pointer designates an existing snapshot. */
  predicate WellFormed(s: GameState) {
    0 <= s.stepNumber < |s.history|
  }

  /** The board on display. */
  function Current(s: GameState): Squares
    requires WellFormed(s)
  {
    s.history[s.stepNumber].squares
  }

  /** The mark whose turn it is at step `k` (X on even steps). */
  function MoverAt(k: int): Mark {
    Player(k % 2 == 0)
  }

  /**
   * `after` is `before` with one empty cell given mark `m`, and it records
   * that cell's position label.
   */
  predicate OneMove(before: Squares, after: Snapshot, m: Mark) {
    exists i: Cell ::
      && before[i] == Empty
      && after.squares == before[i := m]
      && after.position == Some(PositionLabel(i))
  }

  /** Board `b`, the `k`-th snapshot, carries `k` marks, X leading O by `k % 2`. */
  predicate CountsAt(b: Squares, k: int) {
    MarkCount(b) == k && Count(b, X) - Count(b, O) == k % 2
  }

  predicate MarkCounts(h: seq<Snapshot>) {
    forall k :: 0 <= k < |h| ==> CountsAt(h[k].squares, k)
  }

  /**
   * Snapshot `k` comes from snapshot `k - 1` by one legal move of the player
   * whose turn it was, and records the label of the cell played; snapshot
   * `k - 1` had no winner.
   */
  predicate MoveAt(h: seq<Snapshot>, k: int)
    requires 0 < k < |h|
  {
    && !HasWinningLine(h[k - 1].squares)
    && OneMove(h[k - 1].squares, h[k], MoverAt(k - 1))
  }

  predicate MovesChain(h: seq<Snapshot>) {
    forall k :: 0 < k < |h| ==> MoveAt(h, k)
  }

  /** What every reachable state satisfies. */
  predicate Invariant(s: GameState) {
    && |s.history| > 0
    && s.history[0] == StartSnapshot
    && WellFormed(s)
    && s.xIsNext == (s.stepNumber % 2 == 0)
    && MarkCounts(s.history)
    && MovesChain(s.history)
  }

  /** The constructor's state: one empty snapshot, X to move, list shown descending. */
  function Init(): (s: GameState)
    ensures Invariant(s)
    ensures |s.history| == 1 && Current(s) == EmptyBoard
    ensures s.xIsNext && s.reversed
  {
    GameState([StartSnapshot], 0, true, true)
  }

  /** A click on cell `i` is accepted: the displayed board has no winner and cell `i` is empty. */
  predicate Accepts(s: GameState, i: Cell)
    requires WellFormed(s)
  {
    CalculateWinner(Current(s)).None? && Current(s)[i] == Empty
  }

  /**
   * `handleClick(i, position)`: drop the snapshots after the current step,
   * ignore the click if the current board is won or cell `i` is taken,
   * otherwise append the board with the mover's mark at `i`.
   */
  function HandleClick(s: GameState, i: Cell, position: string): (t: GameState)
    requires WellFormed(s)
    ensures WellFormed(t)
    ensures !Accepts(s, i) ==> t == s
    ensures Accepts(s, i) ==>
      && t.history == s.history[..s.stepNumber + 1] + [t.history[|t.history| - 1]]
      && t.history[|t.history| - 1].position == Some(position)
      && t.stepNumber == |t.history| - 1 == s.stepNumber + 1
      && t.xIsNext == !s.xIsNext
      && t.reversed == s.reversed
      && (forall j: Cell :: Current(t)[j] == if j == i then Player(s.xIsNext) else Current(s)[j])
  {
    var history := s.history[..s.stepNumber + 1];
    var current := history[|history| - 1];
    var squares := current.squares;
    if CalculateWinner(squares).Some? || squares[i] != Empty then
      s
    else
      var squares' := squares[i := if s.xIsNext then X else O];
      s.(history := history + [Snapshot(squares', Some(position))],
         stepNumber := |history|,
         xIsNext := !s.xIsNext)
  }

  /**
   * A click on square `i` as the board delivers it (`renderSquare`): the
   * index goes to `handleClick` together with the label `generateSquares`
   * built for that same square.
   */
  function ClickSquare(s: GameState, i: Cell): (t: GameState)
    requires WellFormed(s)
    ensures WellFormed(t)
    ensures !Accepts(s, i) ==> t == s
    ensures Accepts(s, i) ==>
      Current(t) == Current(s)[i := Player(s.xIsNext)] && t.history[t.stepNumber].position == Some(PositionLabel(i))
  {
    HandleClick(s, i, PositionLabel(i))
  }

  /** `jumpTo(step)`: move the pointer; the turn follows the step's parity. */
  function JumpTo(s: GameState, step: int): (t: GameState)
    requires 0 <= step < |s.history|
    ensures WellFormed(t) && Current(t) == s.history[step].squares
    ensures t.history == s.history && t.reversed == s.reversed
    ensures t.stepNumber == step && (t.xIsNext <==> step % 2 == 0)
  {
    s.(stepNumber := step, xIsNext := step % 2 == 0)
  }

  /** The sort toggle: flip the display order only. */
  function ToggleSort(s: GameState): (t: GameState)
    ensures t.reversed != s.reversed
    ensures t.history == s.history && t.stepNumber == s.stepNumber && t.xIsNext == s.xIsNext
  {
    s.(reversed := !s.reversed)
  }

  /** Toggling twice gives back the original state. */
  lemma ToggleSortInvolution(s: GameState)
    ensures ToggleSort(ToggleSort(s)) == s
  {
  }

  /** A click leaves the state untouched exactly when it is rejected. */
  lemma HandleClickNoOpIffRejected(s: GameState, i: Cell, position: string)
    requires WellFormed(s)
    ensures HandleClick(s, i, position) == s <==> !Accepts(s, i)
  {
  }

  /** The sort toggle keeps the invariant. */
  lemma ToggleSortPreservesInvariant(s: GameState)
    requires Invariant(s)
    ensures Invariant(ToggleSort(s))
  {
  }

  /** An in-range jump keeps the invariant. */
  lemma JumpToPreservesInvariant(s: GameState, step: int)
    requires Invariant(s) && 0 <= step < |s.history|
    ensures Invariant(JumpTo(s, step))
  {
  }

  /** Placing the mover's mark on an empty cell of snapshot `k` yields a valid snapshot `k + 1`. */
  lemma PlaceKeepsCounts(b: Squares, i: Cell, k: nat)
    requires b[i] == Empty && CountsAt(b, k)
    ensures CountsAt(b[i := MoverAt(k)], k + 1)
  {
    CountUpdate(b, i, MoverAt(k), X);
    CountUpdate(b, i, MoverAt(k), O);
  }

  /**
   * The history an accepted click at step `n` leaves: the first `n + 1`
   * snapshots and snapshot `n` with mark `m` at cell `i`.
   */
  function Extended(h: seq<Snapshot>, n: nat, i: Cell, m: Mark, position: string): (h': seq<Snapshot>)
    requires n < |h|
    ensures |h'| == n + 2
    ensures forall k :: 0 <= k <= n ==> h'[k] == h[k]
    ensures h'[n + 1] == Snapshot(h[n].squares[i := m], Some(position))
  {
    h[..n + 1] + [Snapshot(h[n].squares[i := m], Some(position))]
  }

  /** Appending a legal move to snapshot `n` keeps the mark counts. */
  lemma ExtendKeepsCounts(h: seq<Snapshot>, n: nat, i: Cell, position: string)
    requires MarkCounts(h) && n < |h| && h[n].squares[i] == Empty
    ensures MarkCounts(Extended(h, n, i, MoverAt(n), position))
  {
    var h' := Extended(h, n, i, MoverAt(n), position);
    assert CountsAt(h[n].squares, n);
    PlaceKeepsCounts(h[n].squares, i, n);
    forall k | 0 <= k < |h'|
      ensures CountsAt(h'[k].squares, k)
    {
      if k <= n {
        assert CountsAt(h[k].squares, k);
      }
    }
  }

  /** Appending a legal move to an unfinished snapshot `n` keeps the move chain. */
  lemma ExtendKeepsChain(h: seq<Snapshot>, n: nat, i: Cell)
    requires MovesChain(h) && n < |h|
    requires !HasWinningLine(h[n].squares) && h[n].squares[i] == Empty
    ensures MovesChain(Extended(h, n, i, MoverAt(n), PositionLabel(i)))
  {
    var h' := Extended(h, n, i, MoverAt(n), PositionLabel(i));
    forall k | 0 < k < |h'|
      ensures MoveAt(h', k)
    {
      if k <= n {
        assert MoveAt(h, k);
      } else {
        assert OneMove(h'[n].squares, h'[n + 1], MoverAt(n));
      }
    }
  }

  /** The state an accepted click produces, spelled out. */
  lemma AcceptedClickState(s: GameState, i: Cell, position: string)
    requires WellFormed(s) && Accepts(s, i)
    ensures HandleClick(s, i, position) == GameState(
      Extended(s.history, s.stepNumber, i, Player(s.xIsNext), position),
      s.stepNumber + 1, !s.xIsNext, s.reversed)
  {
  }

  /** One more step flips the parity. */
  lemma ParityFlips(n: int)
    ensures ((n + 1) % 2 == 0) == !(n % 2 == 0)
  {
  }

  /**
   * The state after a legal move from a state satisfying the invariant
   * satisfies it too, when the move records the label of its cell.
   */
  lemma MoveKeepsInvariant(s: GameState, i: Cell)
    requires Invariant(s)
    requires !HasWinningLine(Current(s)) && Current(s)[i] == Empty
    ensures Invariant(GameState(
      Extended(s.history, s.stepNumber, i, MoverAt(s.stepNumber), PositionLabel(i)),
      s.stepNumber + 1, !s.xIsNext, s.reversed))
  {
    var n := s.stepNumber;
    ParityFlips(n);
    ExtendKeepsCounts(s.history, n, i, PositionLabel(i));
    ExtendKeepsChain(s.history, n, i);
  }

  /** An accepted square click keeps the invariant. */
  lemma AcceptedClickPreservesInvariant(s: GameState, i: Cell)
    requires Invariant(s) && Accepts(s, i)
    ensures Invariant(ClickSquare(s, i))
  {
    AcceptedClickState(s, i, PositionLabel(i));
    assert Player(s.xIsNext) == MoverAt(s.stepNumber);
    MoveKeepsInvariant(s, i);
  }

  /** A square click keeps the invariant, whether it is accepted or not. */
  lemma ClickSquarePreservesInvariant(s: GameState, i: Cell)
    requires Invariant(s)
    ensures Invariant(ClickSquare(s, i))
  {
    if Accepts(s, i) {
      AcceptedClickPreservesInvariant(s, i);
    }
  }

  /** In every reachable state the history holds at most ten snapshots (nine moves). */
  lemma HistoryBounded(s: GameState)
    requires Invariant(s)
    ensures |s.history| <= 10
  {
    var last := |s.history| - 1;
    MarkCountBound(s.history[last].squares);
  }

  /** In every reachable state, X has made as many moves as O or one more. */
  lemma TurnBalance(s: GameState, k: int)
    requires Invariant(s) && 0 <= k < |s.history|
    ensures Count(s.history[k].squares, X) - Count(s.history[k].squares, O) in {0, 1}
  {
  }

  /** A board with the mark counts of one of the first five snapshots has no complete line. */
  lemma EarlyBoardNoWinner(b: Squares, k: int)
    requires CountsAt(b, k) && k < 5
    ensures !HasWinningLine(b)
  {
    FewMarksNoWinner(b);
  }

  /** Nobody can have won before the fifth move: the first five snapshots have no winner. */
  lemma NoWinBeforeFifthMove(s: GameState, k: int)
    requires Invariant(s) && 0 <= k < |s.history| && k < 5
    ensures CalculateWinner(s.history[k].squares).None?
  {
    assert CountsAt(s.history[k].squares, k);
    EarlyBoardNoWinner(s.history[k].squares, k);
  }

  /**
   * Time travel followed by an accepted click replaces the whole future:
   * the history becomes the first `step + 1` snapshots plus the new one.
   */
  lemma JumpThenClickTruncates(s: GameState, step: int, i: Cell, position: string)
    requires Invariant(s) && 0 <= step < |s.history|
    requires Accepts(JumpTo(s, step), i)
    ensures |HandleClick(JumpTo(s, step), i, position).history| == step + 2
    ensures HandleClick(JumpTo(s, step), i, position).history[..step + 1] == s.history[..step + 1]
  {
  }
}
