# Tic-tac-toe game engine

A Dafny model of the `useTicTacToe` hook (`hooks/use-tic-tac-toe.ts`), the
only part of the tic-tac-toe app that has game logic. The hook has two
parts, and so does the model.

- **Outcome evaluator** (`outcome.dfy`, module `Outcome`). Pure functions of
  a nine-square board. `calculateWinner` and `getWinningLine` scan the eight
  lines (three rows, three columns, two diagonals) in a fixed order and stop
  at the first line whose three squares hold the same mark. `isDraw` and
  `status` are derived from the winner, from whether the board is full, and
  from whose turn it is. The scan is specified by a recursive search
  `FirstLineFrom`. The two loops are the methods `CalculateWinner` and
  `GetWinningLine`, proved to return what that search finds.
- **State machine** (`game.dfy`, class `Game.TicTacToe`). It has the hook's
  four state fields: `squares`, `xIsNext`, `gameHistory` and `currentMove`.
  The handlers `handleSquareClick`, `resetGame` and `jumpToMove` are methods
  that assign those fields. The derived values `winner`, `winningLine`,
  `isDraw` and `status` are functions of the fields.

`boards.dfy` (module `Boards`) holds the square type `Cell = Empty | X | O`,
where `Empty` is the hook's `null`, and the nine-square `Board`.
`history.dfy` (module `History`) states what a history built by the game
looks like:
- it starts at the empty board;
- each later board is the one before it with exactly one empty square now
  holding the mark of the player to move, X at even positions and O at odd
  ones;
- no board except the last has a complete line.

The hook stores `squares` and `xIsNext` next to `gameHistory` and
`currentMove`, so the same information is kept twice. The class invariant
`Valid()` says the copies agree:
- `squares == gameHistory[currentMove]`;
- `xIsNext == (currentMove % 2 == 0)`;
- `0 <= currentMove < |gameHistory|`;
- the history is well formed.

The constructor establishes `Valid()` and every handler preserves it.
From the invariant the model proves these facts:
- the history never holds more than ten boards;
- a winner is always the player who made the last move;
- all complete lines on a reachable board carry the same mark;
- a draw happens exactly when nine moves were made and none completed a
  line.

## Model

| member | source | states |
|---|---|---|
| `Boards.FilledUpdate` | hooks/use-tic-tac-toe.ts:108-109 | writing a mark into an empty square of a copy raises the count of marks by exactly one |
| `Boards.FilledAll` | hooks/use-tic-tac-toe.ts:82 | all squares hold a mark exactly when the count of marks equals the number of squares |
| `Outcome.FirstLineFrom` | hooks/use-tic-tac-toe.ts:42-48 | the scan from line k returns the first complete line at or after k, and returns none exactly when no line from k on is complete |
| `Outcome.FirstLine` | hooks/use-tic-tac-toe.ts:31-48 | the whole scan returns none exactly when no line is complete; otherwise it returns a complete line with no complete line before it |
| `Outcome.Winner` | hooks/use-tic-tac-toe.ts:30-49 | the winner is non-null exactly when some line of the board is complete |
| `Outcome.WinningLine` | hooks/use-tic-tac-toe.ts:57-77 | the winning line is present exactly when some line is complete; it is one of the eight lines and it is complete |
| `Outcome.CalculateWinner` | hooks/use-tic-tac-toe.ts:30-49 | the early-return loop over the eight lines returns the mark of the first complete line, or null |
| `Outcome.GetWinningLine` | hooks/use-tic-tac-toe.ts:57-77 | the same loop returning the line itself returns the first complete line, or null |
| `Outcome.WinnerOnWinningLine` | hooks/use-tic-tac-toe.ts:30-77 | the winning line is present exactly when the winner is non-null, and the winner is the mark in all three of its squares |
| `Outcome.WinnerIsFirstCompleteLine` | hooks/use-tic-tac-toe.ts:42-45 | for a complete line with no complete line before it in the scan order, the winner is its mark and the winning line is that line |
| `Outcome.EmptyBoardHasNoLine` | hooks/use-tic-tac-toe.ts:19-21 | the initial board has no winner |
| `Outcome.IsDraw` | hooks/use-tic-tac-toe.ts:82 | a draw holds exactly when no line is complete and every square holds a mark |
| `Outcome.Status` | hooks/use-tic-tac-toe.ts:85-93 | with a complete line the status is "Winner: X" or "Winner: O", naming the winner; with no line on a full board it is "Game ended in a draw!"; otherwise it names the next player from `xIsNext`; a winner takes precedence over a draw |
| `Outcome.TopRowWin` | hooks/use-tic-tac-toe.ts:30-93 | on the board X X X / O O _ / _ _ _ the winner is X, the winning line is 0-1-2, and the status is "Winner: X" |
| `Outcome.FullBoardDraw` | hooks/use-tic-tac-toe.ts:80-93 | on the full board X O X / X O O / O X X there is no winner, it is a draw, and the status is "Game ended in a draw!" |
| `History.MoveFillsOne` | hooks/use-tic-tac-toe.ts:108-109 | a move adds exactly one mark to the board |
| `History.FilledAtIndex` | hooks/use-tic-tac-toe.ts:108-112 | the board at history position k holds exactly k marks |
| `History.HistoryBounded` | hooks/use-tic-tac-toe.ts:103-112 | a history built by the game holds at most ten boards |
| `History.NinthMoveFillsBoard` | hooks/use-tic-tac-toe.ts:108-112 | the tenth board of a history is full |
| `History.NewLinesBelongToMover` | hooks/use-tic-tac-toe.ts:103-109 | a move on a board with no complete line completes only lines that carry the mover's mark |
| `History.OneWinnerPerBoard` | hooks/use-tic-tac-toe.ts:30-49 | on every board of a history, every complete line carries the winner's mark, so the scan order never changes the winner |
| `Game.TicTacToe.constructor` | hooks/use-tic-tac-toe.ts:19-22 | the initial state is an empty board, X to move, a history holding only the empty board, and pointer 0; the invariant holds |
| `Game.TicTacToe.CurrentWinner` | hooks/use-tic-tac-toe.ts:80 | the winner is non-null exactly when the current board has a complete line, and then it is the player who made the last move |
| `Game.TicTacToe.CurrentWinningLine` | hooks/use-tic-tac-toe.ts:81 | the winning line is present exactly when there is a winner; it is one of the eight lines, it is complete, it is the first complete line in scan order, and its three squares all hold the winner's mark |
| `Game.TicTacToe.CurrentIsDraw` | hooks/use-tic-tac-toe.ts:82 | the game is a draw exactly when no line is complete and the pointer is at move 9 |
| `Game.TicTacToe.CurrentStatus` | hooks/use-tic-tac-toe.ts:85-93 | the status names the winner, else reports a draw, else names X after an even number of moves and O after an odd number |
| `Game.TicTacToe.LastMoverWins` | hooks/use-tic-tac-toe.ts:103-118 | in any reachable state, a complete line on the current board means at least one move was made and the winner made the last one |
| `Game.TicTacToe.HandleSquareClick` | hooks/use-tic-tac-toe.ts:100-121 | after a win or on a filled square nothing changes; otherwise the board is the old one with the mover's mark at the index, the history is the old one up to the current move plus the new board, the pointer advances by one to the last entry, and the turn flips; the invariant is preserved |
| `Game.TicTacToe.ResetGame` | hooks/use-tic-tac-toe.ts:126-131 | from any state, the result is the initial state, and the invariant holds |
| `Game.TicTacToe.JumpToMove` | hooks/use-tic-tac-toe.ts:138-145 | the pointer becomes the move; the board and the turn are re-derived from it; the history is unchanged; jumping to 0 shows the empty board with X to move; the invariant is preserved |

## Left out

- React machinery is not modelled: `useState`, `useCallback`, `useMemo` and their dependency arrays. The setters are plain assignments, and the memoised `winner`, `winningLine`, `isDraw` and `status` are functions of the current fields.
- Each handler reads the field values it was called with. This matches the closures in the hook, which capture the pre-call state.
- Game.TicTacToe.HandleSquareClick requires `0 <= index < 9`. The hook does not check the index, and its behaviour for other indices is not defined.
- Game.TicTacToe.JumpToMove requires `0 <= move < |gameHistory|` for the same reason.
- The board copy (`squares.slice()` followed by one write) is a value update of a sequence. Boards are values, so no snapshot can alias another, and the model cannot express such aliasing.
- A winning line is the triple `Line(a, b, c)` rather than a JavaScript array of three numbers.
- JavaScript truthiness on `"X" | "O" | null` is the test `!= Empty`.
- The rendering components are not modelled: the board, the squares, the status banner and the history list. Their only logic is the `winningLine?.includes(i)` highlight and the "Go to move #n" label.
- The page scaffolding and the wiring component are not modelled.
