/**
  The move rules held by the Board component of App.js: the human click
  handler and the body of the computer's deferred move. Both copy the
  squares and assign one element of the copy.
 */
module Moves {
  import opened Options
  import opened Evaluator

  /**
    The `reduce` that collects the indices of the empty squares: a left fold
    that appends index `k` whenever square `k` is empty.
   */
  function EmptyIndices(s: seq<Cell>): (r: seq<nat>)
    ensures forall k :: 0 <= k < |r| ==> r[k] < |s| && s[r[k]] == Empty
    ensures forall i :: 0 <= i < |s| && s[i] == Empty ==> i in r
    ensures forall k, l :: 0 <= k < l < |r| ==> r[k] < r[l]
  {
    if s == [] then []
    else
      var init := s[..|s| - 1];
      var acc := EmptyIndices(init);
      assert forall k :: 0 <= k < |acc| ==> s[acc[k]] == init[acc[k]];
      if s[|s| - 1] == Empty then acc + [|s| - 1] else acc
  }

  /** Whether the human's click on square `i` is refused, as tested at App.js:18. */
  predicate ClickRefused(squares: Board, i: Index, xIsNext: bool, winnerLine: Option<Line>) {
    winnerLine.Some? || squares[i] != Empty || !xIsNext
  }

  /**
    What `handleClick(i)` hands to `onPlay`, or None when it returns without
    calling it.
   */
  function ClickResult(squares: Board, i: Index, xIsNext: bool, winnerLine: Option<Line>): (r: Option<Board>)
    ensures r.None? <==> ClickRefused(squares, i, xIsNext, winnerLine)
    ensures r.Some? ==> r.value[i] == Mark(X) && forall j :: 0 <= j < 9 && j != i ==> r.value[j] == squares[j]
  {
    if ClickRefused(squares, i, xIsNext, winnerLine) then None else Some(squares[i := Mark(X)])
  }

  /** `handleClick`: copy the squares, put 'X' at `i`, and return the copy for `onPlay`. */
  method HandleClick(squares: Board, i: Index, xIsNext: bool, winnerLine: Option<Line>) returns (next: Option<Board>)
    ensures next == ClickResult(squares, i, xIsNext, winnerLine)
  {
    if winnerLine.Some? || squares[i] != Empty || !xIsNext {
      return None;
    }
    var nextSquares := new Cell[9](k requires 0 <= k < 9 => squares[k]);
    nextSquares[i] := Mark(X);
    assert nextSquares[..] == squares[i := Mark(X)];
    next := Some(nextSquares[..]);
  }

  /**
    The square the computer picks. `pick` stands for
    `Math.floor(Math.random() * emptySquares.length)`: below the number of empty
    squares, or 0 when there is none. With no empty square the source reads
    `emptySquares[0]`, which is `undefined`: no square is chosen.
   */
  function ComputerChoice(squares: Board, pick: nat): (c: Option<Index>)
    requires pick == 0 || pick < |EmptyIndices(squares)|
    ensures c.Some? ==> squares[c.value] == Empty
    ensures c.None? <==> forall i :: 0 <= i < 9 ==> squares[i] != Empty
  {
    var empties := EmptyIndices(squares);
    if pick < |empties| then Some(empties[pick]) else None
  }

  /**
    The board the computer's move hands to `onPlay`: 'O' at the chosen square
    and every other square unchanged, or the squares as they were when no
    square is empty (the write to index `undefined` touches no square).
   */
  function ComputerResult(squares: Board, pick: nat): (r: Board)
    requires pick == 0 || pick < |EmptyIndices(squares)|
    ensures ComputerChoice(squares, pick).None? ==> r == squares
    ensures ComputerChoice(squares, pick).Some? ==>
      var i := ComputerChoice(squares, pick).value;
      squares[i] == Empty && r[i] == Mark(O) && forall j :: 0 <= j < 9 && j != i ==> r[j] == squares[j]
  {
    match ComputerChoice(squares, pick)
    case None => squares
    case Some(i) => squares[i := Mark(O)]
  }

  /** The body of the computer's deferred move (App.js:33-38), up to the call of `onPlay`. */
  method ComputerMove(squares: Board, pick: nat) returns (next: Board)
    requires pick == 0 || pick < |EmptyIndices(squares)|
    ensures next == ComputerResult(squares, pick)
  {
    var emptySquares := EmptyIndices(squares);
    var nextSquares := new Cell[9](k requires 0 <= k < 9 => squares[k]);
    if pick < |emptySquares| {
      var computerMove := emptySquares[pick];
      nextSquares[computerMove] := Mark(O);
    }
    next := nextSquares[..];
  }

  /** With `pick` 0 the computer takes the first empty square. */
  lemma PickZeroTakesFirstEmpty(squares: Board, e: Index)
    requires squares[e] == Empty
    requires forall i :: 0 <= i < e ==> squares[i] != Empty
    ensures ComputerChoice(squares, 0) == Some(e)
  {
    assert e in EmptyIndices(squares);
  }
}
