# Tic-tac-toe game logic in Dafny

This project models the game logic of a React tic-tac-toe app with time travel
(`src/index.jsx`). The app keeps a history of boards and a step number that
points at the board on display. It records the `RxC` position of every move. It
can jump back to any earlier step and continue from there, which cuts off the
moves after that step. The move list can be shown ascending or descending.

Modules. The first five follow the parts of the program. The others support the model:

- `Board`: marks, the nine-cell board, and counting marks on a board.
- `Winner`: `calculateWinner`. It scans the eight lines in the app's fixed
  order and reports the first complete line together with its owner. There is a
  functional definition and a loop version proved equal to it.
- `Position`: the `row x col` labels that the board rendering attaches to every
  square (`generateSquares`), and their inverse.
- `Game`: the `Game` component's state (`history`, `stepNumber`, `xIsNext`,
  `reversed`) and its three transitions: `handleClick`, `jumpTo` and the sort
  toggle. `ClickSquare` is a click as the board delivers it: the square's index
  together with that square's own label. `Game` also defines the invariant
  that every reachable state keeps.
- `View`: what `render` derives from the state: the status line, the move
  captions and which caption is bold, the order of the move list, the sort
  button's label, and the squares to highlight.
- `Optional`: a value that may be missing. It stands in for JavaScript's `null`
  and `undefined`.
- `Decimal`: how a move number is written inside a caption (JavaScript's
  decimal rendering of a non-negative integer).
- `Replay`: folds a sequence of user events (square clicks, jumps, sort
  toggles) over the state. It states that every reachable state satisfies the
  invariant.
- `Scenarios`: concrete games played through `Replay`: a top-row win for X, a
  full-board draw, and a jump back followed by a new move.
- `Moves`: one accepted click as a step of a replayed game. It exists to keep
  the `Scenarios` proofs small.

The invariant (`Game.Invariant`) says the following:

- the step number points into the history;
- `xIsNext` agrees with the parity of the step;
- snapshot `k` holds exactly `k` marks, with X moving first;
- each snapshot is the previous one plus one mark, placed on an empty square
  of a board that has no winner, and it records that square's position label.

## Model

| member | source | states |
|---|---|---|
| Winner.CalculateWinner | src/index.jsx:146-164 | the result is "no winner" exactly when none of the eight lines is filled by one player |
| Winner.WinnerFromNone | src/index.jsx:157-163 | scanning from line k finds nothing exactly when none of lines k..7 is complete |
| Winner.WinnerFromFirst | src/index.jsx:157-162 | if the scan from line k reports a win, some line at or after k is complete |
| Winner.CalculateWinnerFindsFirst | src/index.jsx:157-162 | a reported win always comes from the first complete line in the fixed order |
| Winner.FindWinner | src/index.jsx:157-163 | the loop over the lines table returns exactly what the functional definition returns |
| Winner.WinnerSound | src/index.jsx:159-160 | a reported win names one of the eight lines, an X or O owner, and all three of its squares hold that owner's mark |
| Winner.WinnerIsFirstLine | src/index.jsx:147-162 | line k is the first complete line if and only if the result is that line with the mark on its first square |
| Winner.SingleLineWins | src/index.jsx:147-162 | a board whose only marks fill line k reports line k as X's win |
| Winner.FewMarksNoWinner | src/index.jsx:159 | a board with fewer than three marks of each player has no winner |
| Winner.AllLinesOpenIffNoWinner | src/index.jsx:157-163 | checking the eight lines one by one agrees with "no line is complete" |
| Position.PositionLabel | src/index.jsx:34 | a label is three characters: a row digit 1-3, 'x', a column digit 1-3 |
| Position.ParseLabel | src/index.jsx:34 | reading a square's label back gives the square's index |
| Position.LabelOfParse | src/index.jsx:34 | every readable label is the label of the square it reads as |
| Position.PositionLabelInjective | src/index.jsx:29-39 | two squares share a label if and only if they are the same square |
| Position.GenerateSquares | src/index.jsx:29-39 | the nested row/column loops yield nine squares in index order, square 3*row+col labelled row+1 'x' col+1 |
| Game.Init | src/index.jsx:47-59 | the initial state satisfies the invariant, holds one blank board, has X to move and the list reversed |
| Game.HandleClick | src/index.jsx:61-74 | a rejected click leaves the state unchanged; an accepted one cuts the history after the current step, appends the board with the mover's mark and the position, advances the step and flips the mover |
| Game.ClickSquare | src/index.jsx:18-34 | a click on square i is handled with the label of square i; an accepted one puts the mover's mark on i and records that label, a rejected one changes nothing |
| Game.JumpTo | src/index.jsx:76-81 | the displayed board becomes snapshot `step`, the history and sort order are kept, and X moves exactly on even steps |
| Game.ToggleSort | src/index.jsx:128-131 | the sort flag flips and nothing else changes |
| Game.ToggleSortInvolution | src/index.jsx:128-131 | toggling twice restores the state |
| Game.HandleClickNoOpIffRejected | src/index.jsx:65-67 | a click leaves the state unchanged if and only if the board has a winner or the square is taken |
| Game.AcceptedClickState | src/index.jsx:62-73 | the exact state produced by an accepted click |
| Game.ToggleSortPreservesInvariant | src/index.jsx:128-131 | the sort toggle keeps the invariant |
| Game.JumpToPreservesInvariant | src/index.jsx:76-81 | jumping to any recorded step keeps the invariant |
| Game.AcceptedClickPreservesInvariant | src/index.jsx:61-74 | an accepted square click keeps the invariant |
| Game.ClickSquarePreservesInvariant | src/index.jsx:61-74 | every square click, accepted or rejected, keeps the invariant |
| Game.HistoryBounded | src/index.jsx:65-70 | a reachable history never has more than ten snapshots |
| Game.TurnBalance | src/index.jsx:68-72 | on every snapshot X has as many marks as O or one more |
| Game.NoWinBeforeFifthMove | src/index.jsx:65 | no snapshot before the fifth move has a winner |
| Game.JumpThenClickTruncates | src/index.jsx:62-70 | a move made after jumping to `step` keeps snapshots 0..step and drops everything after them |
| View.Status | src/index.jsx:101-108 | a winner is announced first, then a draw on a full board, otherwise the player to move |
| View.StatusNextPlayerIffPlayable | src/index.jsx:101-108 | the status names the next player if and only if some click would be accepted |
| View.DrawMeansNineMoves | src/index.jsx:104-105 | in a reachable state a draw is shown only at step nine, with no winner |
| View.MoveLabel | src/index.jsx:89-91 | move 0 and only move 0 reads "Go to game start", and every other caption starts "Go to move #"; its partners show that captions of distinct moves differ and that each names the square its move played |
| View.MoveLabelInjective | src/index.jsx:89-91 | two move captions are equal if and only if they are for the same move |
| View.CaptionNamesPlayedSquare | src/index.jsx:89-91 | in a reachable state the caption of move k names the square that move k marked |
| View.MoveList | src/index.jsx:88-99 | the list has one entry per snapshot, in ascending order or in reverse when the reversed flag is set |
| View.MoveListCoversHistory | src/index.jsx:88-99 | every move appears in the list exactly once, and only the current step is emphasised |
| View.ToggleSortReversesList | src/index.jsx:121-131 | the sort toggle reverses the displayed list |
| View.ToggleSortTwiceRestoresList | src/index.jsx:121-131 | toggling twice gives back the same list |
| View.SortLabel | src/index.jsx:134 | the button reads "Sort: Descending" exactly when the reversed flag is set and "Sort: Ascending" exactly when it is not |
| View.SortLabelDescribesOrder | src/index.jsx:121-134 | the button reads "Descending" if and only if the list runs from later moves to earlier |
| View.WinningSquares | src/index.jsx:114 | the highlight is empty exactly when there is no winner, and otherwise it is the first complete line in the fixed order, all three squares holding one mark |
| Decimal.DecimalString | src/index.jsx:90 | the text of a move number is a non-empty run of digits, with a leading 0 only for 0 itself and one digit exactly below 10; it reads back as the number |
| Decimal.DecimalRoundTrip | src/index.jsx:90 | the decimal text of a move number reads back as that number |
| Decimal.DecimalStringInjective | src/index.jsx:90 | different move numbers have different decimal texts |
| Replay.Apply | src/index.jsx:94-131 | only a jump to a step that does not exist is refused, and every result is well formed |
| Replay.RunPreservesInvariant | src/index.jsx:61-81 | any sequence of events keeps the invariant |
| Replay.ReachableStatesSatisfyInvariant | src/index.jsx:47-81 | every state reachable from the initial one satisfies the invariant |
| Moves.TopRowWinStatus | src/index.jsx:101-103 | when X fills the top row, the status reads "Winner: X", squares 0-2 are highlighted and every click is ignored |
| Scenarios.LabelExamples | src/index.jsx:34 | the nine labels are 1x1 through 3x3 in index order |
| Scenarios.TopRowWin | src/index.jsx:61-74 | X wins with the top row in five moves, and a further click changes nothing |
| Scenarios.FullBoardDraw | src/index.jsx:101-108 | nine moves with no complete line end in "Result is a draw!" with nothing highlighted |
| Scenarios.DoubleDiagonalHighlightsFirst | src/index.jsx:157-160 | with both diagonals complete, squares 0, 4, 8 are highlighted, the earlier line in the fixed order, and X is announced |
| Scenarios.TimeTravelTruncates | src/index.jsx:62-81 | four moves, a jump to step 2 and a new move leave four snapshots, with O to play |

## Left out

- Rendering (JSX, CSS, the highlight colour, the `<b>` markup itself), `ReactDOM.render` and React's asynchronous `setState` are not modelled. Each transition is a pure function from state to state, and each derived view is a pure function of the state.
- Game.HandleClick requires a well-formed state and a square index 0..8. The app only creates squares 0..8, and every state it builds is well formed.
- Game.HandleClick accepts any position text, as the handler itself does. The invariant is proved for clicks made through `Game.ClickSquare`, the only way the board calls the handler, because it states that each recorded position is the label of the square played.
- Game.JumpTo requires the step to be one that exists in the history. The app only offers jumps to moves in its own list. When `Replay` meets an out-of-range jump it stops with no result rather than letting the state go bad.
- A snapshot's position is optional. The start snapshot has none; JavaScript would write it as `undefined`, and `View.PositionText` renders it that way. Under the invariant only move 0 lacks one, and its caption does not use it.
- The scenarios start from any well-formed blank state at step 0, and `Init` is one such state. This keeps each replayed game independent of the literal initial board.
