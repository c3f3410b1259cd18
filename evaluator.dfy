/**
  The board evaluator of App.js: `calculateWinner` and `getWinnerLine`.
  Both scan the same fixed table of eight lines in declared order and stop
  at the first line that passes their test.
 */
module Evaluator {
  import opened Options

  datatype Player = X | O

  /** A square: `null` in the source, or the string 'X' or 'O'. */
  datatype Cell = Empty | Mark(player: Player)

  type Index = i: nat | i < 9

  /** The nine squares in row-major order. */
  type Board = b: seq<Cell> | |b| == 9
    witness [Empty, Empty, Empty, Empty, Empty, Empty, Empty, Empty, Empty]

  /** One entry `[a, b, c]` of the line table. */
  datatype Line = Line(a: Index, b: Index, c: Index)

  /** `Array(9).fill(null)` */
  const EmptyBoard: Board := [Empty, Empty, Empty, Empty, Empty, Empty, Empty, Empty, Empty]

  /** No line of the empty board is won. */
  lemma NoWinnerOnEmptyBoard()
    ensures CalculateWinner(EmptyBoard) == None
  {
    forall j | 0 <= j < |Lines| ensures !Uniform(EmptyBoard, Lines[j]) {
    }
  }

  /** The three rows, the three columns and the two diagonals, in declared order. */
  const Lines: seq<Line> := [
    Line(0, 1, 2), Line(3, 4, 5), Line(6, 7, 8),
    Line(0, 3, 6), Line(1, 4, 7), Line(2, 5, 8),
    Line(0, 4, 8), Line(2, 4, 6)
  ]

  /** The test of `calculateWinner`: the first square is set and the other two equal it. */
  predicate Uniform(b: Board, l: Line) {
    b[l.a] != Empty && b[l.a] == b[l.b] && b[l.a] == b[l.c]
  }

  /** The test of `getWinnerLine`: all three squares hold `p`. */
  predicate HeldBy(b: Board, l: Line, p: Player) {
    b[l.a] == Mark(p) && b[l.b] == Mark(p) && b[l.c] == Mark(p)
  }

  /** Line `j` is the first uniformly held line at or after table position `k`. */
  ghost predicate FirstUniformFrom(b: Board, k: nat, j: int) {
    k <= j < |Lines| && Uniform(b, Lines[j]) &&
    forall i :: k <= i < j ==> !Uniform(b, Lines[i])
  }

  /** Line `j` is the first line held by `p` at or after table position `k`. */
  ghost predicate FirstHeldFrom(b: Board, p: Player, k: nat, j: int) {
    k <= j < |Lines| && HeldBy(b, Lines[j], p) &&
    forall i :: k <= i < j ==> !HeldBy(b, Lines[i], p)
  }

  /** The loop of `calculateWinner`, from table position `k` on. */
  function WinnerFrom(b: Board, k: nat): (r: Option<Player>)
    requires k <= |Lines|
    ensures r.None? <==> forall j :: k <= j < |Lines| ==> !Uniform(b, Lines[j])
    ensures r.Some? ==> exists j :: FirstUniformFrom(b, k, j)
    ensures forall j :: FirstUniformFrom(b, k, j) ==> r == Some(b[Lines[j].a].player)
    decreases |Lines| - k
  {
    if k == |Lines| then None
    else if Uniform(b, Lines[k]) then
      assert FirstUniformFrom(b, k, k);
      Some(b[Lines[k].a].player)
    else
      var next := k + 1;
      assert forall j :: FirstUniformFrom(b, next, j) ==> FirstUniformFrom(b, k, j);
      WinnerFrom(b, next)
  }

  /**
    `calculateWinner`: the owner of the first uniformly held line, or None when
    no line is uniformly held.
   */
  function CalculateWinner(b: Board): (r: Option<Player>)
    ensures r.None? <==> forall j :: 0 <= j < |Lines| ==> !Uniform(b, Lines[j])
    ensures r.Some? ==> exists j :: FirstUniformFrom(b, 0, j)
    ensures forall j :: FirstUniformFrom(b, 0, j) ==> r == Some(b[Lines[j].a].player)
  {
    WinnerFrom(b, 0)
  }

  /** The loop of `getWinnerLine`, from table position `k` on. */
  function WinnerLineFrom(b: Board, p: Player, k: nat): (r: Option<Line>)
    requires k <= |Lines|
    ensures r.None? <==> forall j :: k <= j < |Lines| ==> !HeldBy(b, Lines[j], p)
    ensures r.Some? ==> exists j :: FirstHeldFrom(b, p, k, j)
    ensures forall j :: FirstHeldFrom(b, p, k, j) ==> r == Some(Lines[j])
    decreases |Lines| - k
  {
    if k == |Lines| then None
    else if HeldBy(b, Lines[k], p) then
      assert FirstHeldFrom(b, p, k, k);
      Some(Lines[k])
    else
      var next := k + 1;
      assert forall j :: FirstHeldFrom(b, p, next, j) ==> FirstHeldFrom(b, p, k, j);
      WinnerLineFrom(b, p, next)
  }

  /** `getWinnerLine`: the first line all of whose squares hold `p`, or None. */
  function GetWinnerLine(b: Board, p: Player): (r: Option<Line>)
    ensures r.None? <==> forall j :: 0 <= j < |Lines| ==> !HeldBy(b, Lines[j], p)
    ensures r.Some? ==> HeldBy(b, r.value, p) && exists j :: FirstHeldFrom(b, p, 0, j) && r.value == Lines[j]
    ensures forall j :: FirstHeldFrom(b, p, 0, j) ==> r == Some(Lines[j])
  {
    WinnerLineFrom(b, p, 0)
  }

  /**
    The two evaluators agree: when `calculateWinner` names `p`, `getWinnerLine`
    for `p` finds a line, and it is the very line that decided the winner.
   */
  lemma WinnerLineConsistent(b: Board, p: Player)
    requires CalculateWinner(b) == Some(p)
    ensures GetWinnerLine(b, p).Some?
    ensures HeldBy(b, GetWinnerLine(b, p).value, p)
    ensures exists j :: FirstUniformFrom(b, 0, j) && GetWinnerLine(b, p) == Some(Lines[j])
  {
    var j :| FirstUniformFrom(b, 0, j);
    assert HeldBy(b, Lines[j], p);
    forall i | 0 <= i < j ensures !HeldBy(b, Lines[i], p) {
      assert !Uniform(b, Lines[i]);
    }
    assert FirstHeldFrom(b, p, 0, j);
  }

  /** A line held by some player always makes `calculateWinner` report a winner. */
  lemma HeldLineMeansWinner(b: Board, p: Player)
    requires GetWinnerLine(b, p).Some?
    ensures CalculateWinner(b).Some?
  {
    var l := GetWinnerLine(b, p).value;
    var j :| FirstHeldFrom(b, p, 0, j) && l == Lines[j];
    assert Uniform(b, Lines[j]);
  }

  /**
    When the other player holds no line, `calculateWinner` names `p` exactly
    when `getWinnerLine` finds a line for `p`.
   */
  lemma WinnerWithoutRival(b: Board, p: Player)
    requires GetWinnerLine(b, Other(p)).None?
    ensures CalculateWinner(b) == Some(p) <==> GetWinnerLine(b, p).Some?
  {
    if CalculateWinner(b).Some? {
      var j :| FirstUniformFrom(b, 0, j);
      var q := b[Lines[j].a].player;
      assert HeldBy(b, Lines[j], q);
      assert q == p;
      WinnerLineConsistent(b, p);
    } else {
      forall j | 0 <= j < |Lines| ensures !HeldBy(b, Lines[j], p) {
        assert !Uniform(b, Lines[j]);
      }
    }
  }

  function Other(p: Player): Player {
    if p == X then O else X
  }
}
