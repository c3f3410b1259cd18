# Noughts and crosses against a random opponent: a Dafny model of the game logic in App.js

The repository is a React noughts-and-crosses game. A human plays X. The computer plays O and takes an empty square at random. All the game logic is in `App.js`. This project models that logic and proves properties of it:

- **Board evaluator** (`evaluator.dfy`, module `Evaluator`). `calculateWinner` and `getWinnerLine` are total functions over a nine-square board. Each scans the same table of eight lines (rows, columns, diagonals) in declared order and stops at the first line that passes its test. Each loop is modelled as a recursive search from a table position.
- **Move rules** (`moves.dfy`, module `Moves`). These are the rules held by the Board component:
  - the human click handler `handleClick`, which refuses the click when there is a winning line, when the square is taken, or when it is not X's turn;
  - the `reduce` that lists the empty squares;
  - the body of the computer's deferred move.
  Both moves copy the squares into an array and assign one element, as the source does (`HandleClick`, `ComputerMove`). Each is proved equal to a specification function (`ClickResult`, `ComputerResult`).
- **Game session** (`session.dfy`, module `GameSession`). These are the three state variables `history`, `currentMove` and `xIsNext`, plus `handlePlay`, `restartGame` and the status line. The session is modelled as a value `State` with one function per transition. The class `Game` has the three fields, and its methods update them in place. Each method is proved to produce exactly the state the matching function gives. On top of the transitions there is a reachability invariant, `Played`: the history starts from the empty board, and each entry is the previous one plus one mark, with X and O taking turns.
- **Concrete games** (`scenarios.dfy`, module `Scenarios`). Two games are played through the entry points from a fresh game. They show the two findings below.

The random choice `Math.floor(Math.random() * emptySquares.length)` is a parameter `pick`. It must be below the number of empty squares, or 0 when there are none, because that is what the expression yields. When no square is empty, `emptySquares[0]` is `undefined` and the write `nextSquares[undefined] = 'O'` changes no square. The model keeps that case: no square changes, and the board is still handed to `handlePlay`.

The three `set…` calls of `handlePlay` and of `restartGame` take effect together at the next render. They are modelled as one atomic update. The computer's `setTimeout` continuation is modelled as one synchronous step (`ComputerStep`, `Game.ComputerTurn`), taken whenever it is not X's turn, which is what the `useEffect` guard tests.

## Model

| member | source | states |
|---|---|---|
| `Evaluator.WinnerFrom` | App.js:146-152 | From table position k on: None exactly when no later line is uniformly held by a mark; otherwise the owner of the first such line |
| `Evaluator.CalculateWinner` | App.js:134-153 | None exactly when none of the eight lines has three equal non-empty squares; otherwise the owner of the first such line in declared order |
| `Evaluator.WinnerLineFrom` | App.js:168-175 | From table position k on: None exactly when no later line is held by p in all three squares; otherwise the first such line |
| `Evaluator.GetWinnerLine` | App.js:156-176 | None exactly when no line has all three squares equal to p; otherwise a line held by p, namely the first in declared order |
| `Evaluator.WinnerLineConsistent` | App.js:101-102 | If `calculateWinner` names p, then `getWinnerLine(squares, p)` is non-null, its three squares hold p, and it is the line that decided the winner |
| `Evaluator.HeldLineMeansWinner` | App.js:146-150 | A line held by any player always makes `calculateWinner` report some winner |
| `Evaluator.WinnerWithoutRival` | App.js:134-176 | When the other player holds no line, `calculateWinner` names p if and only if `getWinnerLine` finds a line for p |
| `Moves.EmptyIndices` | App.js:33 | The collected indices are in range, all empty, strictly increasing, and include every empty square |
| `Moves.ClickResult` | App.js:16-26 | `onPlay` is skipped exactly when there is a winning line, the square is taken, or X is not next; otherwise the new board has X at i and every other square unchanged |
| `Moves.HandleClick` | App.js:16-26 | Copying the squares into an array and writing X at i gives exactly `ClickResult` |
| `Moves.ComputerChoice` | App.js:33-36 | The chosen square is empty; no square is chosen exactly when the board is full |
| `Moves.ComputerResult` | App.js:33-38 | O is written at the chosen, formerly empty square and every other square is unchanged; on a full board the squares stay as they were |
| `Moves.ComputerMove` | App.js:33-38 | The array copy plus one write gives exactly `ComputerResult` |
| `Moves.PickZeroTakesFirstEmpty` | App.js:33-36 | A random draw of 0 selects the lowest-numbered empty square |
| `GameSession.Initial` | App.js:76-78 | The starting state is valid, shows the empty board and reads "Next player: X" |
| `GameSession.Play` | App.js:81-86 | The new history is `history[0..currentMove]` followed by the new squares; `currentMove` points at the new last entry and `xIsNext` is flipped; from a valid state nothing is cut and validity is kept |
| `GameSession.WinnerLineOf` | App.js:100-102 | The highlighted line exists exactly when there is a winner, and its three squares hold the winner |
| `GameSession.StatusOf` | App.js:104-112 | "Winner" exactly when some line is uniformly held, and the winner holds the highlighted line; "draw" only when `currentMove` is 9; otherwise the next player is X exactly when `xIsNext` |
| `GameSession.Click` | App.js:16-26 | A click is a no-op when there is a winner, the square is taken, or X is not next; otherwise only square i changes, to X, and the board is played; validity is kept |
| `GameSession.ComputerStep` | App.js:29-47 | As written: nothing when X is next; otherwise the computer's board is appended to the history and X is next; validity is kept |
| `GameSession.GuardedComputerStep` | App.js:29-47 | Corrected: no move when X is next, when there is a winner, or when the board is full |
| `GameSession.PlayedBounds` | App.js:82-85 | In a played game the current board holds exactly `currentMove` marks, so `currentMove` is at most 9 and the history has at most ten boards |
| `GameSession.CellsNeverRevert` | App.js:23-24 | In a played game a marked square keeps its mark in every later board of the history |
| `GameSession.InitialPlayed` | App.js:76-78 | The starting state is a played game |
| `GameSession.ClickPreservesPlayed` | App.js:16-26 | A click keeps a played game played |
| `GameSession.GuardedComputerPreservesPlayed` | App.js:33-38 | The corrected computer move keeps a played game played |
| `GameSession.DrawMeansFull` | App.js:108-109 | In a played game the draw test `currentMove === 9` holds exactly when there is no winner and every square is taken |
| `GameSession.TerminalIsAbsorbing` | App.js:18-20 | With the corrected computer move, once the status names a winner or a draw, neither a click nor the computer changes the state |
| `GameSession.GuardedAgreesInProgress` | App.js:30 | While the game is in progress, the corrected computer move is the move as written |
| `GameSession.ComputerPlaysAfterWin` | App.js:30-46 | As written: right after X completes a line, the computer still adds an O to the board |
| `GameSession.DrawIsOverwritten` | App.js:30-46 | As written: after a draw the computer's move leaves the full board as it is but appends it, giving eleven boards, and the status reads "Next player: X" while every click is refused |
| `GameSession.Game.constructor` | App.js:76-78 | The three fields start as `[empty board]`, 0 and true |
| `GameSession.Game.HandlePlay` | App.js:81-86 | The fields become exactly `Play` of the old state; from a valid state the history only grows by the new board |
| `GameSession.Game.RestartGame` | App.js:94-98 | From any state the fields become `[empty board]`, 0 and true, a valid played game |
| `GameSession.Game.ClickSquare` | App.js:16-26 | The fields become exactly `Click` of the old state, and a played game stays played |
| `GameSession.Game.ComputerTurn` | App.js:29-47 | The fields become exactly `ComputerStep` of the old state; a played game in progress stays played |
| `Scenarios.WinnerTurnsToO` | App.js:30-46 | X takes 3, 4 and 5 against O on 0 and 1, and the status reads "Winner: X"; the computer then takes square 2 and the status reads "Winner: O" |
| `Scenarios.DrawTurnsToNextPlayer` | App.js:30-46 | X takes 1, 3, 4, 6 and 8 against O on 0, 2, 5 and 7, and the status reads a draw; the computer's move then changes no square and the status reads "Next player: X" |

## Left out

- Rendering: `Square`, the grid in `Board` and `Game`'s markup, App.js:5-11, 53-70 and 116-130. This is presentation, not logic.
- CSS class strings, App.js:2, 7 and 114. They are presentation only.
- Timer scheduling: `setTimeout`, `clearTimeout` and the `useEffect` dependency list, App.js:29-31 and 47-51. The computer's move is one synchronous step taken when `xIsNext` is false. A pending timer cancelled by a re-render is not modelled.
- `Math.random`, App.js:35. Its result is the parameter `pick`.
- The early `return` in `handlePlay`, App.js:88-90. It ends the function either way, so it has no effect. Dropping it also drops the `winner` argument of `handlePlay` and the `computerWinner` computed for it at App.js:41-46, since nothing else reads them.
- Moves.HandleClick: the index is a square 0..8. Clicks only come from the nine rendered squares, so an out-of-range index has no model.
- Evaluator.GetWinnerLine: the winner argument is a player, not any value. App.js:102 calls it only when `calculateWinner` returned a player.
- App.js has no jump-to-move operation. `currentMove` is always the last history index.

## Findings

| source | as written | input that shows it | evidently intended | confidence | as-written member | corrected member |
|---|---|---|---|---|---|---|
| App.js:30 | The computer's move runs whenever `xIsNext` is false, even right after X has completed a line | X plays 3, 4, 5 while the computer takes 0 and 1 in turn. The status reads "Winner: X". The computer then takes square 2, and since row 0-1-2 comes first in the table, the status reads "Winner: O" | The computer moves only while no line is won and some square is empty, so that a finished game stays finished (`GameSession.TerminalIsAbsorbing`) | not executed | `Scenarios.WinnerTurnsToO` | `GameSession.GuardedComputerStep` |
| App.js:30-46 | After X's ninth move it is O's turn, so the computer's move runs on a full board. It chooses `undefined`, changes no square, and still calls `handlePlay`. That makes `currentMove` 10, so the draw test at App.js:108 no longer holds | X plays 1, 3, 4, 6, 8 while the computer takes 0, 2, 5, 7. The status reads "It's a draw!" and then turns to "Next player: X", although no square can be clicked | The computer does not move on a full board, so the draw stays announced (`GameSession.TerminalIsAbsorbing`, `GameSession.DrawMeansFull`) | not executed | `Scenarios.DrawTurnsToNextPlayer` | `GameSession.GuardedComputerStep` |

For both findings, `GameSession.ComputerStep` is the move as written and `GameSession.GuardedComputerStep` is the corrected move. The general forms of the two discrepancies are `GameSession.ComputerPlaysAfterWin` and `GameSession.DrawIsOverwritten`. The reachable-game results use the corrected move: `GuardedComputerPreservesPlayed`, `TerminalIsAbsorbing` and `GuardedAgreesInProgress`. The class method `Game.ComputerTurn` keeps the behaviour as written.
