/** The board of the game and the two outcome evaluators of src/App.js:
    calculateWinner (a scan of eight fixed index triples with an early
    return) and calculateDraw (every square is filled). */
module TicTacToe {

  /** One square: the source stores null, 'X' or 'O'. */
  datatype Cell = Empty | X | O

  /** A position on the board, 0..8 in row-major order. */
  type Index = i: nat | i < 9

  /** Nine squares, as the source's `squares` arrays always have. */
  type Board = s: seq<Cell> | |s| == 9 witness [Empty, Empty, Empty, Empty, Empty, Empty, Empty, Empty, Empty]

  /** `Array(9).fill(null)`: the board at game start. */
  const EmptyBoard: Board := [Empty, Empty, Empty, Empty, Empty, Empty, Empty, Empty, Empty]

  /** The eight winning lines, in the order the source scans them:
      three rows, three columns, two diagonals. */
  const Lines: seq<(Index, Index, Index)> :=
    [(0, 1, 2), (3, 4, 5), (6, 7, 8),
     (0, 3, 6), (1, 4, 7), (2, 5, 8),
     (0, 4, 8), (2, 4, 6)]

  /** Line number `i` holds three equal, non-empty squares. */
  predicate Complete(b: Board, i: nat)
    requires i < |Lines|
  {
    var (p, q, r) := Lines[i];
    b[p] != Empty && b[p] == b[q] && b[p] == b[r]
  }

  /** The mark in the first square of line number `i`. */
  function LineMark(b: Board, i: nat): Cell
    requires i < |Lines|
  {
    b[Lines[i].0]
  }

  /** What the scan of calculateWinner returns when started at line `i`:
      the mark of the first complete line from `i` on, or Empty (the
      source's null) when there is none. */
  function FirstWinner(b: Board, i: nat): Cell
    decreases |Lines| - i
  {
    if i >= |Lines| then Empty
    else if Complete(b, i) then LineMark(b, i)
    else FirstWinner(b, i + 1)
  }

  /** The value calculateWinner returns for a board. */
  function LineWinner(b: Board): Cell
  {
    FirstWinner(b, 0)
  }

  /** The scan from line `i` finds a mark exactly when some line from `i`
      on is complete, and then the mark is that of the first such line. */
  lemma {:induction false} FirstWinnerMeaning(b: Board, i: nat)
    requires i <= |Lines|
    ensures FirstWinner(b, i) == Empty <==> forall j :: i <= j < |Lines| ==> !Complete(b, j)
    ensures FirstWinner(b, i) != Empty ==>
      exists j :: i <= j < |Lines| && Complete(b, j) && FirstWinner(b, i) == LineMark(b, j) &&
        forall k :: i <= k < j ==> !Complete(b, k)
    decreases |Lines| - i
  {
    if i < |Lines| {
      FirstWinnerMeaning(b, i + 1);
      if Complete(b, i) {
        assert FirstWinner(b, i) == LineMark(b, i) != Empty;
      } else if FirstWinner(b, i + 1) != Empty {
        var j :| i + 1 <= j < |Lines| && Complete(b, j) && FirstWinner(b, i + 1) == LineMark(b, j) &&
          forall k :: i + 1 <= k < j ==> !Complete(b, k);
        assert forall k :: i <= k < j ==> !Complete(b, k);
      }
    }
  }

  /** calculateWinner returns a mark only if some line is complete with that
      mark and no earlier line is complete; it returns null exactly when no
      line is complete. */
  lemma LineWinnerMeaning(b: Board)
    ensures LineWinner(b) == Empty <==> forall j :: 0 <= j < |Lines| ==> !Complete(b, j)
    ensures LineWinner(b) != Empty ==>
      exists j :: 0 <= j < |Lines| && Complete(b, j) && LineWinner(b) == LineMark(b, j) &&
        forall k :: 0 <= k < j ==> !Complete(b, k)
  {
    FirstWinnerMeaning(b, 0);
  }

  /** When several lines are complete, the first one in scan order decides. */
  lemma LineWinnerIsFirstComplete(b: Board, i: nat)
    requires i < |Lines| && Complete(b, i)
    requires forall k :: 0 <= k < i ==> !Complete(b, k)
    ensures LineWinner(b) == LineMark(b, i)
  {
    LineWinnerMeaning(b);
  }

  /** calculateWinner: the for loop over `lines` with its early return. */
  method CalculateWinner(squares: Board) returns (w: Cell)
    ensures w == LineWinner(squares)
    ensures w == Empty <==> forall j :: 0 <= j < |Lines| ==> !Complete(squares, j)
    ensures w != Empty ==>
      exists j :: 0 <= j < |Lines| && Complete(squares, j) && w == LineMark(squares, j) &&
        forall k :: 0 <= k < j ==> !Complete(squares, k)
  {
    LineWinnerMeaning(squares);
    for i := 0 to |Lines|
      invariant forall k :: 0 <= k < i ==> !Complete(squares, k)
      invariant LineWinner(squares) == FirstWinner(squares, i)
    {
      var (a, b, c) := Lines[i];
      if squares[a] != Empty && squares[a] == squares[b] && squares[a] == squares[c] {
        return squares[a];
      }
    }
    return Empty;
  }

  /** calculateDraw: `squares.every(square => square !== null)`, walked from
      the front as `every` does. */
  function CalculateDraw(squares: seq<Cell>): (full: bool)
    ensures full <==> forall i :: 0 <= i < |squares| ==> squares[i] != Empty
  {
    if squares == [] then true
    else squares[0] != Empty && CalculateDraw(squares[1..])
  }

  /** The React state `winner`: null, 'X', 'O' or 'Draw'. */
  datatype Verdict = Undecided | Won(mark: Cell) | Draw

  /** `setWinner(calculateWinner(...))`: null becomes Undecided. */
  function FromCell(c: Cell): Verdict
  {
    if c == Empty then Undecided else Won(c)
  }

  /** The value `winner` holds once both effects have run on board `b`:
      the winner effect first, then the draw effect, which overwrites it
      with 'Draw' whenever the board is full. */
  function Outcome(b: Board): Verdict
  {
    var afterWinnerEffect := FromCell(LineWinner(b));
    if CalculateDraw(b) then Draw else afterWinnerEffect
  }

  /** What each recomputed verdict means: Draw exactly when the board is
      full, whatever lines it holds; Won(m) exactly when the board is not
      full and m is the mark of the first complete line; Undecided exactly
      when some square is empty and no line is complete. */
  lemma OutcomeMeaning(b: Board)
    ensures Outcome(b) == Draw <==> forall i :: 0 <= i < 9 ==> b[i] != Empty
    ensures Outcome(b) == Undecided <==>
      (exists i :: 0 <= i < 9 && b[i] == Empty) && forall j :: 0 <= j < |Lines| ==> !Complete(b, j)
    ensures Outcome(b).Won? <==>
      (exists i :: 0 <= i < 9 && b[i] == Empty) && exists j :: 0 <= j < |Lines| && Complete(b, j)
    ensures Outcome(b).Won? ==>
      Outcome(b).mark != Empty &&
      exists j :: 0 <= j < |Lines| && Complete(b, j) && Outcome(b).mark == LineMark(b, j) &&
        forall k :: 0 <= k < j ==> !Complete(b, k)
  {
    LineWinnerMeaning(b);
  }
}
