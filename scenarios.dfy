/**
  Concrete games played through the session's entry points from a fresh game
  (the state `useState` starts with and `restartGame` sets): the human clicks,
  and after each click the computer takes the first empty square (a random
  draw that happens to return 0).
 */
module Scenarios {
  import opened Options
  import opened Evaluator
  import opened Moves
  import opened GameSession

  /** A board none of whose lines is uniformly held has no winner (a cheap way to evaluate one). */
  lemma NoLineWon(b: Board)
    requires forall l :: l in Lines ==> !Uniform(b, l)
    ensures CalculateWinner(b) == None
  {
    forall j | 0 <= j < |Lines| ensures !Uniform(b, Lines[j]) {
      assert Lines[j] in Lines;
    }
  }

  /** A board whose first uniformly held line is line `j` is won by that line's owner. */
  lemma LineWon(b: Board, j: nat)
    requires j < |Lines| && Uniform(b, Lines[j])
    requires forall l :: l in Lines[..j] ==> !Uniform(b, l)
    ensures CalculateWinner(b) == Some(b[Lines[j].a].player)
  {
    forall i | 0 <= i < j ensures !Uniform(b, Lines[i]) {
      assert Lines[i] in Lines[..j];
    }
    assert FirstUniformFrom(b, 0, j);
  }

  /** One round of a game in progress: X takes square `i`, then O takes square `e`, the first one left. */
  lemma Round(s: State, i: Index, e: Index, before: Board, after: Board)
    requires Valid(s) && s.xIsNext && Current(s) == before
    requires CalculateWinner(before).None? && before[i] == Empty
    requires e != i && before[e] == Empty
    requires forall k :: 0 <= k < e ==> k == i || before[k] != Empty
    requires before[i := Mark(X)][e := Mark(O)] == after
    ensures var t := ComputerStep(Click(s, i), 0);
      && Valid(t) && t.xIsNext && t.currentMove == s.currentMove + 2
      && Current(t) == after
  {
    var t := Click(s, i);
    assert Current(t) == before[i := Mark(X)];
    PickZeroTakesFirstEmpty(Current(t), e);
  }

  // ---------------------------------------------------------------------
  // X wins on row 3-4-5, then the computer completes row 0-1-2.

  const OpeningX3: Board := [Mark(O), Empty, Empty, Mark(X), Empty, Empty, Empty, Empty, Empty]
  const OpeningX34: Board := [Mark(O), Mark(O), Empty, Mark(X), Mark(X), Empty, Empty, Empty, Empty]
  const WinX: Board := [Mark(O), Mark(O), Empty, Mark(X), Mark(X), Mark(X), Empty, Empty, Empty]
  const WinO: Board := [Mark(O), Mark(O), Mark(O), Mark(X), Mark(X), Mark(X), Empty, Empty, Empty]

  lemma NoWinnerOpeningX3()
    ensures CalculateWinner(OpeningX3) == None
  {
    NoLineWon(OpeningX3);
  }

  lemma NoWinnerOpeningX34()
    ensures CalculateWinner(OpeningX34) == None
  {
    NoLineWon(OpeningX34);
  }

  lemma WinnerOfWinX()
    ensures CalculateWinner(WinX) == Some(X)
  {
    LineWon(WinX, 1);
  }

  lemma WinnerOfWinO()
    ensures CalculateWinner(WinO) == Some(O)
  {
    LineWon(WinO, 0);
  }

  lemma WinRoundOne(s: State)
    requires Valid(s) && s.xIsNext && Current(s) == EmptyBoard
    ensures var t := ComputerStep(Click(s, 3), 0);
      Valid(t) && t.xIsNext && t.currentMove == s.currentMove + 2 && Current(t) == OpeningX3
  {
    NoWinnerOnEmptyBoard();
    Round(s, 3, 0, EmptyBoard, OpeningX3);
  }

  lemma WinRoundTwo(s: State)
    requires Valid(s) && s.xIsNext && Current(s) == OpeningX3
    ensures var t := ComputerStep(Click(s, 4), 0);
      Valid(t) && t.xIsNext && t.currentMove == s.currentMove + 2 && Current(t) == OpeningX34
  {
    NoWinnerOpeningX3();
    Round(s, 4, 1, OpeningX3, OpeningX34);
  }

  lemma XCompletesRow(s: State)
    requires Valid(s) && s.xIsNext && Current(s) == OpeningX34
    ensures var won := Click(s, 5);
      Valid(won) && !won.xIsNext && Current(won) == WinX && StatusOf(won) == Winner(X)
  {
    NoWinnerOpeningX34();
    assert Current(Click(s, 5)) == WinX;
    WinnerOfWinX();
  }

  lemma OCompletesRow(won: State)
    requires Valid(won) && !won.xIsNext && Current(won) == WinX
    ensures StatusOf(ComputerStep(won, 0)) == Winner(O)
  {
    PickZeroTakesFirstEmpty(WinX, 2);
    assert Current(ComputerStep(won, 0)) == WinO;
    WinnerOfWinO();
  }

  /**
    X completes row 3-4-5 and the status reads `Winner: X`; the computer moves
    anyway, completes row 0-1-2, which comes first in the line table, and the
    status turns to `Winner: O`.
   */
  lemma WinnerTurnsToO(s0: State)
    requires Valid(s0) && s0.xIsNext && Current(s0) == EmptyBoard && s0.currentMove == 0
    ensures var won := Click(ComputerStep(Click(ComputerStep(Click(s0, 3), 0), 4), 0), 5);
      && StatusOf(won) == Winner(X)
      && StatusOf(ComputerStep(won, 0)) == Winner(O)
  {
    WinRoundOne(s0);
    var s2 := ComputerStep(Click(s0, 3), 0);
    WinRoundTwo(s2);
    var s4 := ComputerStep(Click(s2, 4), 0);
    XCompletesRow(s4);
    OCompletesRow(Click(s4, 5));
  }

  // ---------------------------------------------------------------------
  // A drawn game: X 1, O 0, X 3, O 2, X 4, O 5, X 6, O 7, X 8.

  const Draw2: Board := [Mark(O), Mark(X), Empty, Empty, Empty, Empty, Empty, Empty, Empty]
  const Draw4: Board := [Mark(O), Mark(X), Mark(O), Mark(X), Empty, Empty, Empty, Empty, Empty]
  const Draw6: Board := [Mark(O), Mark(X), Mark(O), Mark(X), Mark(X), Mark(O), Empty, Empty, Empty]
  const Draw8: Board := [Mark(O), Mark(X), Mark(O), Mark(X), Mark(X), Mark(O), Mark(X), Mark(O), Empty]
  const Full: Board := [Mark(O), Mark(X), Mark(O), Mark(X), Mark(X), Mark(O), Mark(X), Mark(O), Mark(X)]

  lemma NoWinnerDraw2()
    ensures CalculateWinner(Draw2) == None
  {
    NoLineWon(Draw2);
  }

  lemma NoWinnerDraw4()
    ensures CalculateWinner(Draw4) == None
  {
    NoLineWon(Draw4);
  }

  lemma NoWinnerDraw6()
    ensures CalculateWinner(Draw6) == None
  {
    NoLineWon(Draw6);
  }

  lemma NoWinnerDraw8()
    ensures CalculateWinner(Draw8) == None
  {
    NoLineWon(Draw8);
  }

  lemma NoWinnerFull()
    ensures CalculateWinner(Full) == None
  {
    NoLineWon(Full);
  }

  lemma DrawRoundOne(s: State)
    requires Valid(s) && s.xIsNext && Current(s) == EmptyBoard
    ensures var t := ComputerStep(Click(s, 1), 0);
      Valid(t) && t.xIsNext && t.currentMove == s.currentMove + 2 && Current(t) == Draw2
  {
    NoWinnerOnEmptyBoard();
    Round(s, 1, 0, EmptyBoard, Draw2);
  }

  lemma DrawRoundTwo(s: State)
    requires Valid(s) && s.xIsNext && Current(s) == Draw2
    ensures var t := ComputerStep(Click(s, 3), 0);
      Valid(t) && t.xIsNext && t.currentMove == s.currentMove + 2 && Current(t) == Draw4
  {
    NoWinnerDraw2();
    Round(s, 3, 2, Draw2, Draw4);
  }

  lemma FirstRounds(s: State)
    requires Valid(s) && s.xIsNext && Current(s) == EmptyBoard
    ensures var t := ComputerStep(Click(ComputerStep(Click(s, 1), 0), 3), 0);
      Valid(t) && t.xIsNext && t.currentMove == s.currentMove + 4 && Current(t) == Draw4
  {
    DrawRoundOne(s);
    DrawRoundTwo(ComputerStep(Click(s, 1), 0));
  }

  lemma DrawRoundThree(s: State)
    requires Valid(s) && s.xIsNext && Current(s) == Draw4
    ensures var t := ComputerStep(Click(s, 4), 0);
      Valid(t) && t.xIsNext && t.currentMove == s.currentMove + 2 && Current(t) == Draw6
  {
    NoWinnerDraw4();
    Round(s, 4, 5, Draw4, Draw6);
  }

  lemma DrawRoundFour(s: State)
    requires Valid(s) && s.xIsNext && Current(s) == Draw6
    ensures var t := ComputerStep(Click(s, 6), 0);
      Valid(t) && t.xIsNext && t.currentMove == s.currentMove + 2 && Current(t) == Draw8
  {
    NoWinnerDraw6();
    Round(s, 6, 7, Draw6, Draw8);
  }

  lemma LastRounds(s: State)
    requires Valid(s) && s.xIsNext && Current(s) == Draw4
    ensures var t := ComputerStep(Click(ComputerStep(Click(s, 4), 0), 6), 0);
      Valid(t) && t.xIsNext && t.currentMove == s.currentMove + 4 && Current(t) == Draw8
  {
    DrawRoundThree(s);
    DrawRoundFour(ComputerStep(Click(s, 4), 0));
  }

  lemma NinthMove(s: State)
    requires Valid(s) && s.xIsNext && Current(s) == Draw8 && s.currentMove == 8
    ensures var drawn := Click(s, 8);
      && StatusOf(drawn) == Draw
      && Current(ComputerStep(drawn, 0)) == Full
      && StatusOf(ComputerStep(drawn, 0)) == NextPlayer(X)
  {
    NoWinnerDraw8();
    var drawn := Click(s, 8);
    assert Current(drawn) == Full;
    NoWinnerFull();
    assert ComputerChoice(Full, 0).None?;
  }

  /**
    X's ninth move fills the board without a line and the status reads
    `It's a draw!`; the computer's move still runs, changes no square, and the
    status turns to `Next player: X`.
   */
  lemma DrawTurnsToNextPlayer(s0: State)
    requires Valid(s0) && s0.xIsNext && Current(s0) == EmptyBoard && s0.currentMove == 0
    ensures var drawn := Click(
      ComputerStep(Click(ComputerStep(Click(ComputerStep(Click(ComputerStep(Click(s0, 1), 0), 3), 0), 4), 0), 6), 0), 8);
      && StatusOf(drawn) == Draw
      && Current(ComputerStep(drawn, 0)) == Full
      && StatusOf(ComputerStep(drawn, 0)) == NextPlayer(X)
  {
    FirstRounds(s0);
    var s4 := ComputerStep(Click(ComputerStep(Click(s0, 1), 0), 3), 0);
    LastRounds(s4);
    var s8 := ComputerStep(Click(ComputerStep(Click(s4, 4), 0), 6), 0);
    NinthMove(s8);
  }
}
