# Game XO: the game-state machine, in Dafny

Game XO is a browser tic-tac-toe game in which a human (X, always first)
plays a bot (O) that picks a random empty square, with a list of past moves
the player can jump back to. All of its logic lives in the `App` component
of `src/App.js`; this project models that logic and proves what it does.

- `board.dfy`, module `TicTacToe`: squares (`Cell`), boards (nine cells),
  the eight winning lines in the source's scan order, `calculateWinner` as
  a method with the source's loop and early return (specified by the
  function `LineWinner`), `calculateDraw` as a recursive function, and
  `Outcome`, the value the React state `winner` takes once both outcome
  effects have run.
- `bot.dfy`, module `Bot`: the bot's list of empty squares (the `reduce`),
  the draw `Math.floor(Math.random() * length)` with the random number as a
  parameter `r`, 0 <= r < 1, and the chosen square.
- `game.dfy`, module `GameState`: class `Game` whose fields are the four
  pieces of React state (`history`, `stepNumber`, `xIsNext`, `winner`), with
  `handleClick`, `jumpTo` and `resetGame` as methods, the two outcome
  effects as one explicit `Recompute`, and the bot's decision as `BotMove`.
  `Valid()` is the invariant every handler keeps: the history starts with the
  empty board, the step pointer selects an entry, and X moves exactly on even
  steps.
- `scenarios.dfy`, module `Scenarios`: games played through the handlers
  (each click or jump followed by `Recompute`), with the resulting states
  proved: a top-row win, a click after the win, a click on an occupied
  square, a restart after the win, a jump back that clears the stale win, a
  move after a jump, and a ninth move that completes a line.

## Where the code and its design description differ

The model follows the code in each case.

- A move after jumping back does not discard the later entries:
  `handleClick` computes the cut history (line 74) but appends to the full
  one (line 83), and sets the step pointer to the displayed step plus one
  (line 84). The displayed board after such a move is then an old entry,
  not the one just made (`Scenarios.MoveAfterJumpKeepsLaterEntries`). The
  clean properties of a move (one entry appended at the end, earlier
  entries untouched, the step pointer on the new last entry, each entry one
  mark more than the one before) are proved for moves from the latest step.
- A board that is full is reported as a draw even when it holds a complete
  line, because the draw effect (lines 106-111) runs after the winner
  effect (lines 101-104) and overwrites it (`TicTacToe.OutcomeMeaning`,
  `Scenarios.LastMoveLineIsReportedAsDraw`). The draw effect appears twice
  (lines 106-111 and 122-127); running it twice gives the same result, so
  `Recompute` runs it once.
- The turn is stored in `xIsNext`, not derived from the step; the handlers
  keep it equal to "the step is even" (part of `Valid()`).
- A scheduled bot move is not cancelled when the player acts during the
  delay.

## Model

| member | source | states |
|---|---|---|
| TicTacToe.CalculateWinner | src/App.js:14-32 | the scan returns a mark exactly when some line holds three equal non-empty squares, that mark is the one of the first complete line in scan order, and it returns null (Empty) exactly when no line is complete; the result equals `LineWinner` |
| TicTacToe.FirstWinnerMeaning | src/App.js:25-31 | the scan started at line i finds a mark iff a line from i on is complete, and then it is the mark of the first complete one |
| TicTacToe.LineWinnerMeaning | src/App.js:14-32 | calculateWinner returns m only if some line is complete with mark m and no earlier line is complete; it returns null iff no line is complete |
| TicTacToe.LineWinnerIsFirstComplete | src/App.js:25-30 | when several lines are complete, the first in the listed order decides |
| TicTacToe.CalculateDraw | src/App.js:34-36 | calculateDraw is true iff every square is non-empty |
| TicTacToe.OutcomeMeaning | src/App.js:101-111 | after both effects, `winner` is Draw iff the board is full (whatever lines it holds), Won(m) iff the board is not full and some line is complete (m being the mark of the first one), and null iff some square is empty and no line is complete |
| Bot.EmptySquares | src/App.js:43-48 | the collected list holds exactly the indices of the empty squares, each in range, in strictly ascending order |
| Bot.RandomPosition | src/App.js:50 | `Math.floor(r * len)` with 0 <= r < 1 is a valid position in a non-empty list, and 0 for an empty one |
| Bot.RandomPositionInterval | src/App.js:50 | position p is drawn iff r lies in [p/len, (p+1)/len), an interval of width 1/len for every p |
| Bot.BotChoice | src/App.js:43-51 | the bot targets a square exactly when the board has an empty square, and the square it targets is empty |
| Bot.BotChoiceUniform | src/App.js:43-51 | each empty square is chosen exactly for the r in one interval of width 1/len, so all empty squares are equally likely |
| GameState.Game.constructor | src/App.js:64-69 | the initial state: history holds only the empty board, step 0, X to move, no winner |
| GameState.Game.HandleClick | src/App.js:73-86 | a click while a winner or draw is recorded, or on an occupied square, leaves history, step and turn unchanged; an accepted click appends the displayed board with the empty square `index` now holding X if X is next else O (all other squares unchanged), advances the step by one and flips the turn; from the latest step, history grows by one entry at the end, earlier entries are unchanged, the step points at the new last entry and the one-mark-per-entry property of the history is kept |
| GameState.Game.JumpTo | src/App.js:88-92 | history unchanged, step set to the target, X to move iff the target is even, winner cleared |
| GameState.Game.ResetGame | src/App.js:94-99 | from any state: history is the empty board alone, step 0, X to move, no winner |
| GameState.Game.Recompute | src/App.js:101-111 | only `winner` changes, and it becomes the verdict of the displayed board, the draw effect having the last word |
| GameState.Game.BotMove | src/App.js:39-58 | the bot acts iff no winner is recorded and O is to move; it then targets an empty square of the displayed board chosen by `BotChoice`, or `undefined` exactly when the board is full, which cannot happen once the outcome has been recomputed |
| Scenarios.Move | src/App.js:73-111 | an accepted click from the latest step followed by the effects: the displayed board gains the mover's mark, earlier entries are kept, and `winner` is the new board's verdict |
| Scenarios.TopRowWin | src/App.js:73-111 | X@0, O@3, X@1, O@4, X@2 from the start leaves board [X,X,X,O,O,_,_,_,_] at step 5 with winner X |
| Scenarios.JumpClearsStaleOutcome | src/App.js:88-111 | jumping from that win back to step 2 keeps the six entries and recomputes the verdict from the step-2 board: no winner, X to move |

## Left out

- Rendering: the `Board` component, the move list and the status line
  (src/App.js:4-12 and 113-148), and the stylesheet.
- React's scheduling. State updates are applied at once, in program order,
  and `Recompute` is called explicitly after each handler. In the source the
  effects run only when their dependencies change, so `jumpTo` to the step
  already on display leaves `winner` null; the model recomputes it.
- The bot's 500 ms `setTimeout` and what the delayed call sees. In the
  source the scheduled call uses the `handleClick` of the render that
  scheduled it, and the bot's effect can run before the outcome effects of
  the same render, so it may schedule a move on a board that has just been
  won or filled. `BotMove` reports what the bot decides on the current
  state; the caller then clicks with `HandleClick`.
- `Math.random` is a parameter `r`; uniformity is stated as equal-width
  intervals of `r`, not as a probability.
- A click with `undefined` (the bot's target when no square is empty) is
  reported as `PlayUndefined` and not applied: what the source then does
  (it writes a property named "undefined" on the board copy) is not modelled.
- HandleClick: requires `index` in 0..8, the only values the board's buttons
  pass.
- JumpTo: requires a step below the length of the history, the only values
  the move list offers.
