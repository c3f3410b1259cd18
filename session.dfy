/**
  The Game component of App.js: the three pieces of session state
  (`history`, `currentMove`, `xIsNext`), the two ways they change
  (`handlePlay`, `restartGame`), the status shown above the board, and the
  two events that call `handlePlay` (a human click and the computer's move).

  The session is modelled twice: as a value `State` with functions that give
  the next state, about which the lemmas speak, and as the class `Game`, whose
  methods update the three fields in place and are proved to agree with those
  functions.
 */
module GameSession {
  import opened Options
  import opened Evaluator
  import opened Moves

  datatype State = State(history: seq<Board>, currentMove: nat, xIsNext: bool)

  /** The status line: `Winner: p`, `It's a draw!` or `Next player: p`. */
  datatype Status = Winner(player: Player) | Draw | NextPlayer(player: Player)

  /**
    What the session keeps true between events: the current move is the last
    entry of the history, and X is next exactly after an even number of moves.
   */
  predicate Valid(s: State) {
    |s.history| >= 1 && s.currentMove == |s.history| - 1 && s.xIsNext == (s.currentMove % 2 == 0)
  }

  function Min(a: int, b: int): int {
    if a < b then a else b
  }

  /** The state `useState` starts with, and the one `restartGame` sets. */
  function Initial(): (s: State)
    ensures Valid(s) && Current(s) == EmptyBoard
    ensures StatusOf(s) == NextPlayer(X)
  {
    NoWinnerOnEmptyBoard();
    State([EmptyBoard], 0, true)
  }

  /**
    `handlePlay`: keep the history up to the current move (`slice` stops at the
    end of the list), append the new squares, point at them and flip the turn.
    On a valid state nothing is cut away.
   */
  function Play(s: State, nextSquares: Board): (t: State)
    ensures t.currentMove == |t.history| - 1 && t.history[t.currentMove] == nextSquares
    ensures t.xIsNext == !s.xIsNext
    ensures s.currentMove < |s.history| ==> t.history == s.history[..s.currentMove + 1] + [nextSquares]
    ensures Valid(s) ==> Valid(t) && t.history == s.history + [nextSquares]
  {
    var newHistory := s.history[..Min(s.currentMove + 1, |s.history|)];
    State(newHistory + [nextSquares], |newHistory|, !s.xIsNext)
  }

  /** `currentSquares`: the board at the current move. */
  function Current(s: State): Board
    requires s.currentMove < |s.history|
  {
    s.history[s.currentMove]
  }

  /** `winnerLine`: the line of the winner, if there is one, to be highlighted. */
  function WinnerLineOf(s: State): (l: Option<Line>)
    requires s.currentMove < |s.history|
    ensures l.Some? <==> CalculateWinner(Current(s)).Some?
    ensures l.Some? ==> HeldBy(Current(s), l.value, CalculateWinner(Current(s)).value)
  {
    var winner := CalculateWinner(Current(s));
    if winner.Some? then
      WinnerLineConsistent(Current(s), winner.value);
      GetWinnerLine(Current(s), winner.value)
    else None
  }

  /**
    The status derivation: a winner comes first; otherwise a draw is announced
    only when `currentMove` is 9; otherwise the player to move is named.
   */
  function StatusOf(s: State): (r: Status)
    requires s.currentMove < |s.history|
    ensures r.Winner? <==> exists j :: 0 <= j < |Lines| && Uniform(Current(s), Lines[j])
    ensures r.Winner? ==> WinnerLineOf(s).Some? && HeldBy(Current(s), WinnerLineOf(s).value, r.player)
    ensures r.Draw? ==> s.currentMove == 9
    ensures r.NextPlayer? ==> s.currentMove != 9 && (r.player == X <==> s.xIsNext)
  {
    match CalculateWinner(Current(s))
    case Some(p) => Winner(p)
    case None => if s.currentMove == 9 then Draw else NextPlayer(if s.xIsNext then X else O)
  }

  /**
    A click on square `i` of the current board, as the Board component is
    rendered for the current state: ignored when there is a winner, when the
    square is taken or when it is not X's turn; otherwise X is placed there and
    the board is played.
   */
  function Click(s: State, i: Index): (t: State)
    requires s.currentMove < |s.history|
    ensures Valid(s) ==> Valid(t)
    ensures CalculateWinner(Current(s)).Some? || Current(s)[i] != Empty || !s.xIsNext ==> t == s
    ensures CalculateWinner(Current(s)).None? && Current(s)[i] == Empty && s.xIsNext ==>
      && t == Play(s, Current(s)[i := Mark(X)])
      && Current(t)[i] == Mark(X)
      && (forall j :: 0 <= j < 9 && j != i ==> Current(t)[j] == Current(s)[j])
  {
    match ClickResult(Current(s), i, s.xIsNext, WinnerLineOf(s))
    case None => s
    case Some(nextSquares) => Play(s, nextSquares)
  }

  /**
    The computer's deferred move as the source writes it: it runs whenever it
    is not X's turn, without looking for a winner or for an empty square.
   */
  function ComputerStep(s: State, pick: nat): (t: State)
    requires s.currentMove < |s.history|
    requires pick == 0 || pick < |EmptyIndices(Current(s))|
    ensures Valid(s) ==> Valid(t)
    ensures s.xIsNext ==> t == s
    ensures !s.xIsNext && Valid(s) ==>
      t.history == s.history + [ComputerResult(Current(s), pick)] && t.xIsNext
  {
    if !s.xIsNext then Play(s, ComputerResult(Current(s), pick)) else s
  }

  /**
    The computer's move as evidently intended: it runs only while the game is
    in progress, that is when it is O's turn, no line is won and some square is
    still empty.
   */
  function GuardedComputerStep(s: State, pick: nat): (t: State)
    requires s.currentMove < |s.history|
    requires pick == 0 || pick < |EmptyIndices(Current(s))|
    ensures s.xIsNext || CalculateWinner(Current(s)).Some? || (forall i :: 0 <= i < 9 ==> Current(s)[i] != Empty) ==> t == s
  {
    if !s.xIsNext && WinnerLineOf(s).None? && |EmptyIndices(Current(s))| > 0 then
      Play(s, ComputerResult(Current(s), pick))
    else s
  }

  // ---------------------------------------------------------------------
  // Boards reached by play

  /** The number of squares that hold a mark. */
  function MarkCount(s: seq<Cell>): (n: nat)
    ensures n <= |s|
  {
    if s == [] then 0 else MarkCount(s[..|s| - 1]) + (if s[|s| - 1] != Empty then 1 else 0)
  }

  /** The player who makes move number `k + 1`: X after an even number of moves. */
  function Mover(k: nat): Player {
    if k % 2 == 0 then X else O
  }

  /** `after` is `before` with one empty square marked by `p`. */
  ghost predicate IsMove(before: Board, after: Board, p: Player) {
    exists i: Index :: before[i] == Empty && after == before[i := Mark(p)]
  }

  /**
    A state reached by play: a valid state whose history starts from the empty
    board and whose every entry is the previous one with one more mark, X and O
    taking turns.
   */
  ghost predicate Played(s: State) {
    && Valid(s)
    && s.history[0] == EmptyBoard
    && forall k :: 0 <= k < s.currentMove ==> IsMove(s.history[k], s.history[k + 1], Mover(k))
  }

  lemma {:induction false} MarkCountPlace(s: seq<Cell>, i: nat, p: Player)
    requires i < |s| && s[i] == Empty
    ensures MarkCount(s[i := Mark(p)]) == MarkCount(s) + 1
    decreases |s|
  {
    var n := |s| - 1;
    if i == n {
      assert s[i := Mark(p)][..n] == s[..n];
    } else {
      assert s[i := Mark(p)][..n] == s[..n][i := Mark(p)];
      MarkCountPlace(s[..n], i, p);
    }
  }

  lemma {:induction false} MarkCountExtremes(s: seq<Cell>)
    ensures MarkCount(s) == 0 <==> forall i :: 0 <= i < |s| ==> s[i] == Empty
    ensures MarkCount(s) == |s| <==> forall i :: 0 <= i < |s| ==> s[i] != Empty
    decreases |s|
  {
    if s != [] {
      var n := |s| - 1;
      MarkCountExtremes(s[..n]);
      assert forall i :: 0 <= i < n ==> s[..n][i] == s[i];
    }
  }

  /** After `k` moves of a played game the board holds exactly `k` marks. */
  lemma {:induction false} HistoryMarkCount(s: State, k: nat)
    requires Played(s) && k <= s.currentMove
    ensures MarkCount(s.history[k]) == k
  {
    if k == 0 {
      MarkCountExtremes(EmptyBoard);
    } else {
      HistoryMarkCount(s, k - 1);
      var before := s.history[k - 1];
      assert IsMove(before, s.history[k], Mover(k - 1));
      var i: Index :| before[i] == Empty && s.history[k] == before[i := Mark(Mover(k - 1))];
      MarkCountPlace(before, i, Mover(k - 1));
    }
  }

  /** A played game never holds more than nine moves, so its history has at most ten boards. */
  lemma PlayedBounds(s: State)
    requires Played(s)
    ensures MarkCount(Current(s)) == s.currentMove
    ensures s.currentMove <= 9 && |s.history| <= 10
  {
    HistoryMarkCount(s, s.currentMove);
  }

  /** In a played game a square, once marked, keeps its mark in every later board. */
  lemma {:induction false} CellsNeverRevert(s: State, k: nat, l: nat, i: Index)
    requires Played(s) && k <= l <= s.currentMove
    requires s.history[k][i] != Empty
    ensures s.history[l][i] == s.history[k][i]
    decreases l - k
  {
    if k < l {
      CellsNeverRevert(s, k, l - 1, i);
      var before := s.history[l - 1];
      assert IsMove(before, s.history[l], Mover(l - 1));
    }
  }

  lemma InitialPlayed()
    ensures Played(Initial())
  {
  }

  /** Playing one more legal move of the player whose turn it is keeps a played game played. */
  lemma PlayPreservesPlayed(s: State, nextSquares: Board)
    requires Played(s) && IsMove(Current(s), nextSquares, Mover(s.currentMove))
    ensures Played(Play(s, nextSquares))
  {
    var t := Play(s, nextSquares);
    assert t.history == s.history + [nextSquares];
    forall k | 0 <= k < t.currentMove
      ensures IsMove(t.history[k], t.history[k + 1], Mover(k))
    {
      if k < s.currentMove {
        assert t.history[k] == s.history[k] && t.history[k + 1] == s.history[k + 1];
      }
    }
  }

  /** A click keeps a played game played. */
  lemma ClickPreservesPlayed(s: State, i: Index)
    requires Played(s)
    ensures Played(Click(s, i))
  {
    var cur := Current(s);
    if CalculateWinner(cur).None? && cur[i] == Empty && s.xIsNext {
      assert IsMove(cur, cur[i := Mark(X)], Mover(s.currentMove));
      PlayPreservesPlayed(s, cur[i := Mark(X)]);
    }
  }

  /** The guarded computer move keeps a played game played. */
  lemma GuardedComputerPreservesPlayed(s: State, pick: nat)
    requires Played(s)
    requires pick == 0 || pick < |EmptyIndices(Current(s))|
    ensures Played(GuardedComputerStep(s, pick))
  {
    var cur := Current(s);
    if !s.xIsNext && WinnerLineOf(s).None? && |EmptyIndices(cur)| > 0 {
      var c := ComputerChoice(cur, pick).value;
      var next := cur[c := Mark(O)];
      assert ComputerResult(cur, pick) == next;
      assert IsMove(cur, next, Mover(s.currentMove));
      PlayPreservesPlayed(s, next);
    }
  }

  /**
    In a played game the status check `currentMove === 9` announces a draw
    exactly when the board is full and no line is won.
   */
  lemma DrawMeansFull(s: State)
    requires Played(s)
    ensures StatusOf(s) == Draw <==>
      CalculateWinner(Current(s)).None? && forall i :: 0 <= i < 9 ==> Current(s)[i] != Empty
  {
    PlayedBounds(s);
    MarkCountExtremes(Current(s));
  }

  /**
    With the guarded computer move, a finished game stays finished: once the
    status names a winner or a draw, neither a click nor the computer changes
    anything.
   */
  lemma TerminalIsAbsorbing(s: State, i: Index, pick: nat)
    requires Played(s) && !StatusOf(s).NextPlayer?
    requires pick == 0 || pick < |EmptyIndices(Current(s))|
    ensures Click(s, i) == s && GuardedComputerStep(s, pick) == s
  {
    if StatusOf(s).Draw? {
      DrawMeansFull(s);
    }
  }

  /** While the game is in progress the guarded move is the move as written. */
  lemma GuardedAgreesInProgress(s: State, pick: nat)
    requires Played(s) && StatusOf(s).NextPlayer?
    requires pick == 0 || pick < |EmptyIndices(Current(s))|
    ensures GuardedComputerStep(s, pick) == ComputerStep(s, pick)
  {
    PlayedBounds(s);
    MarkCountExtremes(Current(s));
    if !s.xIsNext {
      assert s.currentMove < 9;
      var e: Index :| Current(s)[e] == Empty;
      assert e in EmptyIndices(Current(s));
    }
  }

  // ---------------------------------------------------------------------
  // The computer's move as written, in finished games

  /**
    As written, the computer still moves right after X has completed a line:
    with squares left it puts an O on one of them.
   */
  lemma ComputerPlaysAfterWin(s: State, pick: nat)
    requires Played(s) && StatusOf(s) == Winner(X) && !s.xIsNext
    requires pick < |EmptyIndices(Current(s))|
    ensures var t := ComputerStep(s, pick);
      && |t.history| == |s.history| + 1
      && MarkCount(Current(t)) == MarkCount(Current(s)) + 1
  {
    var c := ComputerChoice(Current(s), pick).value;
    MarkCountPlace(Current(s), c, O);
  }

  /**
    As written, a draw does not stay announced: at move 9 it is O's turn, so
    the computer's move runs on the full board, changes no square, and still
    appends a board; the status then reads `Next player: X` and no click is
    accepted any more.
   */
  lemma DrawIsOverwritten(s: State)
    requires Played(s) && StatusOf(s) == Draw
    ensures var t := ComputerStep(s, 0);
      && Current(t) == Current(s)
      && |t.history| == 11
      && StatusOf(t) == NextPlayer(X)
      && forall i: Index :: Click(t, i) == t
  {
    DrawMeansFull(s);
    assert ComputerChoice(Current(s), 0).None?;
  }

  // ---------------------------------------------------------------------
  // The Game component

  class Game {
    var history: seq<Board>
    var currentMove: nat
    var xIsNext: bool

    /** The three state variables as one value. */
    function Snapshot(): State
      reads this
    {
      State(history, currentMove, xIsNext)
    }

    constructor ()
      ensures Snapshot() == Initial()
    {
      history := [EmptyBoard];
      currentMove := 0;
      xIsNext := true;
    }

    /** `handlePlay(nextSquares)` */
    method HandlePlay(nextSquares: Board)
      modifies this
      ensures Snapshot() == Play(old(Snapshot()), nextSquares)
      ensures old(Valid(Snapshot())) ==> Valid(Snapshot()) && history == old(history) + [nextSquares]
    {
      var newHistory := history[..Min(currentMove + 1, |history|)];
      history := newHistory + [nextSquares];
      currentMove := |newHistory|;
      xIsNext := !xIsNext;
    }

    /** `restartGame()`: back to the initial state from any state. */
    method RestartGame()
      modifies this
      ensures Snapshot() == Initial()
      ensures Valid(Snapshot()) && Played(Snapshot())
    {
      history := [EmptyBoard];
      currentMove := 0;
      xIsNext := true;
    }

    /** A click on square `i` of the board rendered for the current state. */
    method ClickSquare(i: Index)
      requires currentMove < |history|
      modifies this
      ensures Snapshot() == Click(old(Snapshot()), i)
      ensures old(Played(Snapshot())) ==> Played(Snapshot())
    {
      ghost var before := Snapshot();
      var currentSquares := history[currentMove];
      var winnerLine := WinnerLineOf(Snapshot());
      var nextSquares := HandleClick(currentSquares, i, xIsNext, winnerLine);
      if nextSquares.Some? {
        HandlePlay(nextSquares.value);
      }
      if Played(before) {
        ClickPreservesPlayed(before, i);
      }
    }

    /**
      The computer's deferred move, run as one step when it is not X's turn.
      It keeps a played game played while the game is in progress.
     */
    method ComputerTurn(pick: nat)
      requires currentMove < |history|
      requires pick == 0 || pick < |EmptyIndices(history[currentMove])|
      modifies this
      ensures Snapshot() == ComputerStep(old(Snapshot()), pick)
      ensures old(Played(Snapshot()) && StatusOf(Snapshot()).NextPlayer?) ==> Played(Snapshot())
    {
      ghost var before := Snapshot();
      if Played(before) && StatusOf(before).NextPlayer? {
        GuardedAgreesInProgress(before, pick);
        GuardedComputerPreservesPlayed(before, pick);
      }
      if !xIsNext {
        var nextSquares := ComputerMove(history[currentMove], pick);
        HandlePlay(nextSquares);
      }
    }
  }
}
