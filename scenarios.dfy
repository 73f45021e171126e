/** Games played through the handlers, each click or jump followed by the
    outcome recomputation, and what the state is after them. */
module Scenarios {
  import opened TicTacToe
  import opened GameState

  /** An accepted click from the latest step, followed by the outcome
      effects. */
  method Move(g: Game, index: Index)
    requires g.Valid() && g.stepNumber == |g.history| - 1 && g.Accepts(index)
    modifies g
    ensures g.Valid() && g.stepNumber == old(g.stepNumber) + 1 == |g.history| - 1
    ensures g.Current() == old(g.Current())[index := old(g.Mover())]
    ensures g.history[..old(|g.history|)] == old(g.history)
    ensures g.winner == Outcome(g.Current())
  {
    g.HandleClick(index);
    g.Recompute();
  }

  /** X@0, O@3. */
  method Opening() returns (g: Game)
    ensures fresh(g) && g.Valid() && g.stepNumber == |g.history| - 1 == 2 && g.winner == Undecided
    ensures g.Current() == [X, Empty, Empty, O, Empty, Empty, Empty, Empty, Empty]
  {
    g := new Game();
    Move(g, 0);
    Move(g, 3);
  }

  /** Then X@1, O@4: both players have two in a row. */
  method Threat() returns (g: Game)
    ensures fresh(g) && g.Valid() && g.stepNumber == |g.history| - 1 == 4 && g.winner == Undecided
    ensures g.Current() == [X, X, Empty, O, O, Empty, Empty, Empty, Empty]
    ensures g.history[2] == [X, Empty, Empty, O, Empty, Empty, Empty, Empty, Empty]
    ensures g.history[3] == [X, X, Empty, O, Empty, Empty, Empty, Empty, Empty]
  {
    g := Opening();
    Move(g, 1);
    Move(g, 4);
  }

  /** Then X@2 completes the top row: X has won after the fifth move. */
  method TopRowWin() returns (g: Game)
    ensures fresh(g) && g.Valid() && g.stepNumber == |g.history| - 1 == 5
    ensures g.Current() == [X, X, X, O, O, Empty, Empty, Empty, Empty]
    ensures g.history[2] == [X, Empty, Empty, O, Empty, Empty, Empty, Empty, Empty]
    ensures g.history[3] == [X, X, Empty, O, Empty, Empty, Empty, Empty, Empty]
    ensures g.winner == Won(X)
  {
    g := Threat();
    ghost var before := g.history;
    Move(g, 2);
    assert g.history[2] == before[2] && g.history[3] == before[3];
    assert g.Current()[5] == Empty;
  }

  /** A further click once X has won is ignored. */
  method ClickAfterWinIsIgnored()
  {
    var g := TopRowWin();
    g.HandleClick(5);
    g.Recompute();
    assert g.Current()[5] == Empty;
    assert |g.history| == 6 && g.stepNumber == 5 && g.winner == Won(X);
  }

  /** A second click on the same square adds nothing to the history. */
  method OccupiedSquareIsIgnored()
  {
    var g := new Game();
    Move(g, 0);
    g.HandleClick(0);
    g.Recompute();
    assert |g.history| == 2 && g.stepNumber == 1 && !g.xIsNext;
  }

  /** Restarting after a win gives back the initial state. */
  method ResetAfterWin()
  {
    var g := TopRowWin();
    g.ResetGame();
    g.Recompute();
    assert g.history == [EmptyBoard] && g.stepNumber == 0 && g.xIsNext && g.winner == Undecided;
  }

  /** Jumping back from the win recomputes the verdict from the earlier
      board instead of keeping Won(X). */
  method JumpClearsStaleOutcome() returns (g: Game)
    ensures fresh(g) && g.Valid() && |g.history| == 6 && g.stepNumber == 2 && g.xIsNext
    ensures g.Current() == [X, Empty, Empty, O, Empty, Empty, Empty, Empty, Empty]
    ensures g.history[3] == [X, X, Empty, O, Empty, Empty, Empty, Empty, Empty]
    ensures g.winner == Undecided
  {
    g := TopRowWin();
    g.JumpTo(2);
    g.Recompute();
    assert g.Current() == g.history[2];
  }

  /** A move after jumping back is appended after the LAST entry, not after
      the displayed one, while the step pointer only advances by one: the
      board on display is then the old entry 3, not the board just made. */
  method MoveAfterJumpKeepsLaterEntries()
  {
    var g := JumpClearsStaleOutcome();
    ghost var entry3 := g.history[3];
    g.HandleClick(8);
    g.Recompute();
    assert |g.history| == 7 && g.stepNumber == 3;
    assert g.Last() == [X, Empty, Empty, O, Empty, Empty, Empty, Empty, X];
    assert g.Current() == entry3;
    assert entry3[1] == X && g.Last()[1] == Empty;
  }

  /** From the threat, X@5 and O@6. */
  method Crowded() returns (g: Game)
    ensures fresh(g) && g.Valid() && g.stepNumber == |g.history| - 1 == 6 && g.winner == Undecided
    ensures g.Current() == [X, X, Empty, O, O, X, O, Empty, Empty]
  {
    g := Threat();
    Move(g, 5);
    Move(g, 6);
  }

  /** Then X@7, O@8 and X@2: the ninth move completes the top row, yet the
      draw effect runs last and the game is reported as a draw. */
  method LastMoveLineIsReportedAsDraw()
  {
    var g := Crowded();
    Move(g, 7);
    Move(g, 8);
    Move(g, 2);
    assert g.Current() == [X, X, X, O, O, X, O, X, O];
    assert Complete(g.Current(), 0) && LineWinner(g.Current()) == X;
    assert g.winner == Draw;
  }
}
