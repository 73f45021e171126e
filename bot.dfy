/** The move choice inside BotPlayer (src/App.js:43-51): collect the indices
    of the empty squares with `reduce`, then take the one at position
    `Math.floor(Math.random() * emptySquares.length)`. The random number is
    a parameter `r` with 0 <= r < 1. */
module Bot {
  import opened TicTacToe

  datatype Option<T> = None | Some(value: T)

  /** The `reduce` over the board: the accumulator after the squares
      `s[..n]` have been visited holds the indices of the empty ones among
      them, in visiting order. */
  function EmptySquares(s: seq<Cell>): (e: seq<nat>)
    ensures forall k: nat :: k in e <==> k < |s| && s[k] == Empty
    ensures forall i :: 0 <= i < |e| ==> e[i] < |s| && s[e[i]] == Empty
    ensures forall i, j :: 0 <= i < j < |e| ==> e[i] < e[j]
  {
    if s == [] then []
    else
      var acc := EmptySquares(s[..|s| - 1]);
      assert forall i :: 0 <= i < |acc| ==> acc[i] < |s| - 1 by {
        forall i | 0 <= i < |acc| ensures acc[i] < |s| - 1 { assert acc[i] in acc; }
      }
      if s[|s| - 1] == Empty then acc + [|s| - 1] else acc
  }

  /** `Math.floor(r * len)`. */
  function RandomPosition(len: nat, r: real): (k: int)
    requires 0.0 <= r < 1.0
    ensures 0 <= k
    ensures len > 0 ==> k < len
    ensures len == 0 ==> k == 0
  {
    assert 0.0 <= r * (len as real) <= len as real;
    assert len > 0 ==> r * (len as real) < len as real;
    (r * (len as real)).Floor
  }

  /** The position drawn is `p` exactly when `r` falls in the interval
      [p/len, (p+1)/len): every position gets an interval of width 1/len,
      so a uniform `r` gives a uniform position. */
  lemma RandomPositionInterval(len: nat, r: real, p: nat)
    requires 0.0 <= r < 1.0 && p < len
    ensures RandomPosition(len, r) == p <==>
      (p as real) / (len as real) <= r < ((p + 1) as real) / (len as real)
  {
    var n := len as real;
    ScaleByPositive(p as real, r, n);
    ScaleByPositive((p + 1) as real, r, n);
  }

  /** Dividing by a positive `n` on one side is multiplying by it on the other. */
  lemma ScaleByPositive(x: real, r: real, n: real)
    requires n > 0.0
    ensures x / n <= r <==> x <= r * n
    ensures r < x / n <==> r * n < x
  {
    var q := x / n;
    assert q * n == x;
    assert (r - q) * n == r * n - x;
    if r - q >= 0.0 { assert (r - q) * n >= 0.0; } else { assert (q - r) * n > 0.0; }
  }

  /** `emptySquares[randomIndex]`: an index into the board, or None for
      JavaScript's `undefined` when the board has no empty square. */
  function BotChoice(b: Board, r: real): (c: Option<Index>)
    requires 0.0 <= r < 1.0
    ensures c.Some? <==> exists i :: 0 <= i < 9 && b[i] == Empty
    ensures c.Some? ==> b[c.value] == Empty
  {
    var emptySquares := EmptySquares(b);
    var randomIndex := RandomPosition(|emptySquares|, r);
    if randomIndex < |emptySquares| then
      assert emptySquares[randomIndex] in emptySquares;
      Some(emptySquares[randomIndex])
    else
      assert forall i :: 0 <= i < 9 ==> b[i] != Empty by {
        forall i | 0 <= i < 9 ensures b[i] != Empty {
          assert i as nat !in emptySquares;
        }
      }
      None
  }

  /** The empty square at position `p` of the collected list is chosen for
      exactly the values of `r` in one interval of width 1/len, where len is
      the number of empty squares: since every empty square occurs in the
      list, once, the bot picks uniformly among the empty squares. */
  lemma BotChoiceUniform(b: Board, r: real, p: nat)
    requires 0.0 <= r < 1.0 && p < |EmptySquares(b)|
    ensures b[EmptySquares(b)[p]] == Empty
    ensures BotChoice(b, r) == Some(EmptySquares(b)[p]) <==>
      (p as real) / (|EmptySquares(b)| as real) <= r < ((p + 1) as real) / (|EmptySquares(b)| as real)
  {
    var e := EmptySquares(b);
    RandomPositionInterval(|e|, r, p);
  }
}
