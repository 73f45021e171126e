/** The state of the App component of src/App.js: its four pieces of React
    state as fields of one object, the event handlers handleClick, jumpTo
    and resetGame as methods, the two outcome effects as one explicit
    Recompute, and the bot's decision to move as a method that only reads. */
module GameState {
  import opened TicTacToe
  import opened Bot

  /** What BotPlayer's effect does: nothing, or schedule a click on a square
      (Play), or schedule a click with `undefined` when the list of empty
      squares is empty (PlayUndefined). */
  datatype BotAction = Idle | Play(index: Index) | PlayUndefined

  /** Board `next` is board `prev` with exactly one empty square filled. */
  ghost predicate OneMove(prev: Board, next: Board)
  {
    exists k :: 0 <= k < 9 && prev[k] == Empty && next[k] != Empty && next == prev[k := next[k]]
  }

  /** Each history entry after the first is its predecessor plus one mark. */
  ghost predicate Consecutive(h: seq<Board>)
  {
    forall i :: 0 < i < |h| ==> OneMove(h[i - 1], h[i])
  }

  class Game {
    var history: seq<Board>
    var stepNumber: nat
    var xIsNext: bool
    var winner: Verdict

    /** What every handler keeps: the history starts with the empty board,
        the step pointer selects an entry, and X is to move exactly on even
        steps. */
    ghost predicate Valid()
      reads this
    {
      1 <= |history| && history[0] == EmptyBoard && stepNumber < |history| &&
      (xIsNext <==> stepNumber % 2 == 0)
    }

    /** `history[stepNumber].squares`: the board on display. */
    function Current(): Board
      reads this
      requires Valid()
    {
      history[stepNumber]
    }

    /** The board most recently appended to the history. */
    function Last(): Board
      reads this
      requires Valid()
    {
      history[|history| - 1]
    }

    /** `xIsNext ? 'X' : 'O'`: the mark a click writes. */
    function Mover(): Cell
      reads this
    {
      if xIsNext then X else O
    }

    /** The guard of handleClick lets the click through: no winner or draw
        has been recorded and the clicked square is empty. */
    predicate Accepts(index: Index)
      reads this
      requires Valid()
    {
      winner == Undecided && Current()[index] == Empty
    }

    /** The initial values of the four `useState` calls. */
    constructor ()
      ensures Valid()
      ensures history == [EmptyBoard] && stepNumber == 0 && xIsNext && winner == Undecided
    {
      history := [EmptyBoard];
      stepNumber := 0;
      xIsNext := true;
      winner := Undecided;
    }

    /** handleClick(index). A click while a winner or a draw is recorded, or
        on an occupied square, changes nothing. Otherwise a copy of the
        displayed board receives the mover's mark at `index` and is appended
        at the END of the whole history (not of the history cut after the
        displayed step), the step pointer advances by one and the turn
        passes. `winner` is left for Recompute. */
    method HandleClick(index: Index)
      requires Valid()
      modifies this
      ensures Valid()
      ensures winner == old(winner)
      ensures !old(Accepts(index)) ==>
        history == old(history) && stepNumber == old(stepNumber) && xIsNext == old(xIsNext)
      ensures old(Accepts(index)) ==>
        history == old(history) + [old(Current())[index := old(Mover())]] &&
        stepNumber == old(stepNumber) + 1 && xIsNext == !old(xIsNext)
      // the new board: the displayed one, with the empty square `index` now marked
      ensures old(Accepts(index)) ==>
        old(Current()[index]) == Empty && Last()[index] == old(Mover()) && Last()[index] != Empty &&
        forall j :: 0 <= j < 9 && j != index ==> Last()[j] == old(Current()[j])
      // a move from the latest step: one entry appended, the step pointer on it
      ensures old(Accepts(index)) && old(stepNumber) == |old(history)| - 1 ==>
        |history| == |old(history)| + 1 && history[..|old(history)|] == old(history) &&
        stepNumber == |history| - 1 && Current() == Last() &&
        (old(Consecutive(history)) ==> Consecutive(history))
    {
      var newHistory := history[..stepNumber + 1];
      var current := history[stepNumber];
      var currentSquare := new Cell[9](i requires 0 <= i < 9 => current[i]);

      if winner != Undecided || currentSquare[index] != Empty {
        return;
      }

      currentSquare[index] := if xIsNext then X else O;

      assert currentSquare[..] == current[index := currentSquare[index]];
      ghost var before := history;
      history := history + [currentSquare[..]];
      stepNumber := |newHistory|;
      xIsNext := !xIsNext;

      assert history[..|before|] == before;
      if stepNumber == |history| - 1 && Consecutive(before) {
        assert OneMove(current, Last()) by {
          assert current[index] == Empty && Last()[index] != Empty;
        }
        assert forall i :: 0 < i < |history| ==> OneMove(history[i - 1], history[i]) by {
          forall i | 0 < i < |history| ensures OneMove(history[i - 1], history[i]) {
            if i < |before| {
              assert history[i - 1] == before[i - 1] && history[i] == before[i];
            }
          }
        }
      }
    }

    /** jumpTo(step): the step pointer moves, the turn follows its parity,
        the recorded winner is cleared and the history is untouched. */
    method JumpTo(step: nat)
      requires Valid() && step < |history|
      modifies this`stepNumber, this`xIsNext, this`winner
      ensures Valid()
      ensures history == old(history)
      ensures stepNumber == step && xIsNext == (step % 2 == 0) && winner == Undecided
    {
      stepNumber := step;
      xIsNext := step % 2 == 0;
      winner := Undecided;
    }

    /** resetGame(): back to the initial state, from any state. */
    method ResetGame()
      modifies this
      ensures Valid()
      ensures history == [EmptyBoard] && stepNumber == 0 && xIsNext && winner == Undecided
    {
      history := [EmptyBoard];
      stepNumber := 0;
      xIsNext := true;
      winner := Undecided;
    }

    /** The two outcome effects, in the order they run: first
        `setWinner(calculateWinner(...))`, then `setWinner('Draw')` when the
        displayed board is full. Only `winner` changes. */
    method Recompute()
      requires Valid()
      modifies this`winner
      ensures winner == Outcome(Current())
    {
      var currentSquares := history[stepNumber];
      var w := CalculateWinner(currentSquares);
      winner := FromCell(w);
      var draw := CalculateDraw(Current());
      if draw {
        winner := Draw;
      }
    }

    /** BotPlayer's effect: the bot acts only when nothing is recorded in
        `winner` and it is O's turn; it then targets an empty square of the
        displayed board, or `undefined` when there is none. Once Recompute
        has run, the second case cannot arise. */
    method BotMove(r: real) returns (action: BotAction)
      requires Valid() && 0.0 <= r < 1.0
      ensures action == Idle <==> winner != Undecided || xIsNext
      ensures action.Play? ==> Current()[action.index] == Empty && action == Play(BotChoice(Current(), r).value)
      ensures action == PlayUndefined <==> winner == Undecided && !xIsNext && CalculateDraw(Current())
      ensures winner == Outcome(Current()) ==> action != PlayUndefined
    {
      if winner == Undecided && !xIsNext {
        var choice := BotChoice(Current(), r);
        if choice.Some? {
          action := Play(choice.value);
        } else {
          action := PlayUndefined;
        }
      } else {
        action := Idle;
      }
    }
  }
}
