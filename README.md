# Tic-tac-toe decision engine

A Dafny model of the game logic of a 3x3 tic-tac-toe web app (`src/App.jsx`).
The model covers the rules (winner and draw detection), the computer player's three
strengths (Easy plays a random empty cell, Medium flips a coin between random and
minimax, Hard runs a full-depth minimax search), and the match state the game
updates on every move (board, turn, status, winner, winning line).

Modules:

- `Rules` (`rules.dfy`): marks, cells, the nine-cell board, the eight winning lines
  in scan order, `CalculateWinner`, `IsDraw` and the list of empty cells.
- `Moves` (`moves.dfy`): `RandomMove`, the minimax score as a specification
  (`MinimaxValue`, `ChildrenBest`), the in-place search `Minimax` and `HardMove`
  as methods over an array proved against it, and the `MediumMove` and `AIMove`
  dispatch.
- `Game` (`game.dfy`): the class `TicTacToe` holding the match state. It has
  `MakeMove`, `HandleClick` and `ResetGame`. The computer's turn has two steps:
  `StartComputerTurn` is the effect that sets the thinking flag, and
  `PlayComputerMove` is the timer callback that picks and plays the move and
  clears the flag.
  Its invariant `Valid` says that status, winner and winning line are what the
  board determines, and that X and O have alternated with X first.
- `Scenarios` (`scenarios.dfy`): concrete positions and what the rules and the
  search decide on them.

How the game is represented:

- A cell is `Empty` (the source's `null`) or `Marked(X)` / `Marked(O)`.
- `Math.random()` becomes a `real` parameter in [0, 1). The random pick is
  `Floor(rand * n)`, as in the source.
- `-Infinity` and `Infinity` in the search become the integers -1000 and 1000.
  Every real score lies in [-10, 10].
- The source hard-codes O as the side the search maximises. Here that side is
  the parameter `active`, and the source's own behaviour is `active == O`.
  `HardMove(squares, O)` is the source's `getHardMove(squares)`, and
  `PlayComputerMove(O, …)` is the source's computer turn. `ComputerMove` is the
  corrected turn, which searches for the side to move (see Findings).
- The delayed computer move is split into its two halves. When the timer is
  cleared because the board, turn or mode changed during the delay, the caller
  simply does not call `PlayComputerMove`.
- `getHardMove` receives its board as a value and copies it into a fresh array.
  `Minimax` places and undoes marks in that array in place.

## Model

| member | source | states |
|---|---|---|
| `Rules.Opponent` | src/App.jsx:73-84 | the two sides alternate: the opponent's mark differs from the mover's |
| `Rules.FirstCompleteLine` | src/App.jsx:25-30 | the scan from line k returns the first complete line at or after k, and None exactly when none of them is complete |
| `Rules.CalculateWinner` | src/App.jsx:18-32 | None exactly when no line is complete; otherwise the returned line is one of the eight lines, all three of its cells hold the returned mark, and no line earlier in scan order (rows, columns, diagonals) is complete |
| `Rules.IsDraw` | src/App.jsx:35-37 | a draw holds exactly when every cell is filled and no line is complete |
| `Rules.AvailableMovesFrom` | src/App.jsx:41-43 | the list holds exactly the empty indices from i on, strictly increasing, at most 9 - i of them |
| `Rules.AvailableMoves` | src/App.jsx:41-43 | the available-moves list holds exactly the indices of empty cells, in increasing order |
| `Rules.EmptyCountZero` | src/App.jsx:65 | no empty cell remains exactly when the board is full |
| `Rules.EmptyCountAtMost9` | src/App.jsx:5 | a board has at most nine empty cells |
| `Rules.EmptyBoardHasNoWinner` | src/App.jsx:5 | the new game's empty board has no winner, is not full and is not a draw |
| `Moves.PickIndex` | src/App.jsx:44 | `Math.floor(rand * n)` for rand in [0, 1) is a valid position in a list of n moves |
| `Moves.PickIndexHits` | src/App.jsx:44 | the draw k / n picks position k |
| `Moves.RandomMove` | src/App.jsx:40-45 | the random move is None (the source's `undefined`) exactly when the board is full, and otherwise an empty cell |
| `Moves.RandomMoveAt` | src/App.jsx:44 | the draw k / n yields the k-th available move |
| `Moves.RandomMoveReachesEveryEmptyCell` | src/App.jsx:40-45 | every empty cell is the random move for some draw in [0, 1) |
| `Moves.MinimaxValue` | src/App.jsx:58-67 | the minimax score (the terminal cases as written; an undecided board takes the accumulated best child score); its meaning is stated by `Moves.MinimaxValueBounds` and `Moves.Minimax` |
| `Moves.ChildrenBest` | src/App.jsx:69-91 | the `bestScore` accumulator after cells 0 .. n-1, placing the active mark when maximising and its opponent otherwise; its meaning is stated by `Moves.ChildrenBestNoEmpty`, `Moves.ChildrenBestBounds` and `Moves.Minimax` |
| `Moves.MinimaxValueBounds` | src/App.jsx:58-67 | an active-mark win at depth d scores 10 - d > 0 and a loss d - 10 < 0; every score lies in [d - 10, 10 - d]; an undecided position scores within [d - 9, 9 - d] |
| `Moves.ChildrenBestNoEmpty` | src/App.jsx:69-91 | before any empty cell has been tried, the accumulator still holds its -Infinity / Infinity sentinel |
| `Moves.ChildrenBestBounds` | src/App.jsx:69-91 | once an empty cell has been tried, the max (or min) accumulator holds a score within [d - 9, 9 - d] |
| `Moves.Minimax` | src/App.jsx:58-92 | the in-place search returns the minimax score of the board, and on return the board is exactly as it was: every placement is undone |
| `Moves.MoveScoreBounds` | src/App.jsx:59-63 | every candidate move scores within [-10, 10], and exactly the moves that win at once score 10 |
| `Moves.HardMove` | src/App.jsx:57-111 | None exactly when no cell is empty; otherwise an empty cell with the greatest score, with every earlier empty cell scoring strictly less (first maximum); the input board is a value and is not changed |
| `Moves.HardChoiceTakesFirstImmediateWin` | src/App.jsx:94-110 | when some move wins at once, the search picks the first such move |
| `Moves.HardChoiceIsUnique` | src/App.jsx:103-106 | the search's choice is determined by the board (strict `>` keeps the first maximum) |
| `Moves.MediumMove` | src/App.jsx:48-54 | with coin > 0.5 the minimax move, otherwise the random move; either way an empty cell, and None only on a full board |
| `Moves.AIMove` | src/App.jsx:114-125 | Easy gives the random move for the first draw; Medium gives the random move for the second draw when the first is at most 0.5 and the minimax choice otherwise; Hard gives the minimax choice; every strategy returns an empty cell, and None only on a full board |
| `Game.ShouldComputerMove` | src/App.jsx:161-163 | the computer never moves in player-vs-player mode, always in computer-vs-computer mode, and against a human exactly when O is to move |
| `Game.StatusOf` | src/App.jsx:145-154 | the status the board determines is won exactly when a line is complete and draw exactly when the board is a draw |
| `Game.InitialStateConsistent` | src/App.jsx:5-11 | the initial state (empty board, X to move, playing, no winner, empty line) agrees with its board |
| `Game.MoveKeepsTurnsAlternating` | src/App.jsx:141-143 | placing the mover's mark on an empty cell and flipping the turn keeps X's count equal to O's or one more |
| `Game.TicTacToe.constructor` | src/App.jsx:5-11 | a new game starts on an empty board with X to move and status playing, and satisfies the invariant |
| `Game.TicTacToe.ResetGame` | src/App.jsx:182-188 | reset restores the empty board, X to move, playing, no winner and no line, keeping mode and difficulty |
| `Game.TicTacToe.MakeMove` | src/App.jsx:139-155 | the new board differs from the old only at index, which gets X if X was next and O otherwise; the turn flag is negated; a complete line sets won with its winner and line, a draw sets draw, otherwise status, winner and line are unchanged; from a playing state on an empty cell the invariant is kept |
| `Game.TicTacToe.HandleClick` | src/App.jsx:128-136 | a click on an occupied cell, after the game ended, while the computer is thinking, on the computer's turn against a human, or in computer-vs-computer mode changes nothing; otherwise the side to move's mark goes on the cell and the turn passes, as `makeMove(index)`; mode, difficulty and the thinking flag stay; the invariant is kept |
| `Game.TicTacToe.StartComputerTurn` | src/App.jsx:158-166 | the thinking flag is set when the game is playing and the computer is to move, and kept otherwise; nothing else changes; the invariant is kept |
| `Game.TicTacToe.PlayComputerMove` | src/App.jsx:169-175 | the computer's turn as written (with `searchSide` O): when the game is playing and the computer is to move, the move chosen for the difficulty (searched for `searchSide`) is an empty cell and receives the side to move's mark, the turn passes and the thinking flag is cleared; otherwise nothing changes; mode and difficulty stay; the invariant is kept |
| `Game.TicTacToe.ComputerMove` | src/App.jsx:158-175 | corrected computer turn: as `PlayComputerMove`, but the search is for the side to move, so on Hard the move is the minimax choice for the mark actually played |
| `Scenarios.TopRowWins` | src/App.jsx:18-31 | a board with X across the top row reports X and the line [0, 1, 2] |
| `Scenarios.FirstLineInScanOrderWins` | src/App.jsx:19-29 | when both diagonals are complete, the main diagonal [0, 4, 8], first in scan order, is reported |
| `Scenarios.FullBoardWithoutLineIsDraw` | src/App.jsx:35-37 | a full board with no complete line is a draw |
| `Scenarios.SearchCompletesOwnRow` | src/App.jsx:94-110 | with O on 0 and 1 and X on 3 and 4, the search for O plays 2 and completes the row |
| `Scenarios.HardcodedSearchMissesWinForX` | src/App.jsx:62-100 | with X on 0 and 1 and O on 3 and 4, X to move, the search with O as the maximiser returns 5 although 2 wins at once for X |
| `Scenarios.SideToMoveSearchTakesWinForX` | src/App.jsx:57-111 | on the same board, the search run for X returns 2, the winning move |
| `Scenarios.AsWrittenComputerTurnMissesWin` | src/App.jsx:158-175 | in computer-vs-computer mode on Hard, X to move on that board, the turn as written puts X on 5 and the game is still playing |
| `Scenarios.ComputerTurnTakesWin` | src/App.jsx:158-175 | the corrected turn on the same game puts X on 2, and X has won |
| `Scenarios.ResetWhileThinkingRefusesClicks` | src/App.jsx:128-135 | against the computer, a reset while the computer is thinking leaves the flag set, so a click on the empty board with X to move is refused |

## Findings

| source | as written | input that shows it | evidently intended | confidence | as-written member | corrected member |
|---|---|---|---|---|---|---|
| src/App.jsx:100-101 | `getHardMove` always places O first and scores wins for O as positive (lines 62, 73), and the computer-vs-computer mode calls it for X's turns too (line 170), so X's computer plays the cell best for O | X on 0 and 1, O on 3 and 4, X to move, Hard, computer vs computer: the move is 5 (blocking O) and X misses the win at 2 | the computer searches for the side to move | medium; not executed | `Game.TicTacToe.PlayComputerMove` with `searchSide == O`, exhibited by `Scenarios.AsWrittenComputerTurnMissesWin` and, for the search alone, `Scenarios.HardcodedSearchMissesWinForX` | `Game.TicTacToe.ComputerMove` searches for the side to move; `Scenarios.ComputerTurnTakesWin` and `Scenarios.SideToMoveSearchTakesWinForX` show it takes the win |

In player-vs-computer mode the computer is always O, so there the corrected
behaviour and the written one agree.

The full board X, O, X / O, X, O / X, O, X is not a draw: both diagonals hold
X, and `calculateWinner` reports the win on [0, 4, 8], the first of them in
scan order (`Scenarios.FirstLineInScanOrderWins`).

The thinking flag is modelled as written. `resetGame` does not clear it
(src/App.jsx:182-188). A reset during the computer's delay clears the pending
timer, so the callback that would clear the flag never runs. Every later click
is then refused (src/App.jsx:129). `Scenarios.ResetWhileThinkingRefusesClicks`
shows this against the computer.

## Left out

- React state hooks, rendering, the settings panel, CSS class strings, the speed slider and the mode indicator: presentation only.
- The `setTimeout` delay and the speed setting: the model has no clock. A cancelled timer is a `PlayComputerMove` that is never called. The effect's re-run on every change of board, turn, status or mode is left to the caller.
- Changing mode or difficulty in the settings panel: both are fixed when a `TicTacToe` is made. Switching mode mid-game, which also cancels a pending computer move, is not modelled.
- `Math.random`: its values are parameters in [0, 1). Uniformity and the 50% split of Medium are probabilistic claims and are not stated.
- The score tally (`scores`, `resetScores`): session display state.
- `startNewGame` and `showSettings`: they only toggle the settings screen before calling `resetGame`, which is modelled.
- The `default` branch of `getAIMove`: the difficulty can only be set to easy, medium or hard, so `Difficulty` has those three values and no fourth.
- Moves.MinimaxValueBounds: the bounds are stated for positions where depth plus the number of empty cells is at most 9. Every call the search makes satisfies this; a call from outside with a larger depth would not.
- `makeMove` with an index outside 0..8 is not modelled (`MakeMove` requires index < 9); every caller passes a square index or a computer move, both in range.
- The claim that the Hard player never loses from a reachable position is not proved. The model proves the score bounds, the first-maximum choice and the immediate-win property.
