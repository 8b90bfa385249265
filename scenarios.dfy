/** Concrete positions: what the rules and the search decide on them. */
module Scenarios {
  import opened Rules
  import opened Moves
  import opened Game

  /** A full board whose marks alternate X, O, X, ... with X on the diagonals. */
  const Alternating: Board := [
    Marked(X), Marked(O), Marked(X),
    Marked(O), Marked(X), Marked(O),
    Marked(X), Marked(O), Marked(X)
  ]

  /** A full board with no complete line. */
  const Drawn: Board := [
    Marked(X), Marked(O), Marked(X),
    Marked(X), Marked(O), Marked(O),
    Marked(O), Marked(X), Marked(X)
  ]

  /** X holds the top row; the scan reports that row and X. */
  lemma TopRowWins()
    ensures CalculateWinner([Marked(X), Marked(X), Marked(X), Marked(O), Marked(O), Empty, Empty, Empty, Empty])
         == Some(WinResult(X, [0, 1, 2]))
  {
    var b: Board := [Marked(X), Marked(X), Marked(X), Marked(O), Marked(O), Empty, Empty, Empty, Empty];
    assert CompleteAt(b, 0);
  }

  /** When two lines are complete, the first in scan order is reported:
      both diagonals hold X, and the main diagonal comes first. So this
      board, with every cell filled, is a win and not a draw. */
  lemma FirstLineInScanOrderWins()
    ensures CalculateWinner(Alternating) == Some(WinResult(X, [0, 4, 8]))
  {
    assert !CompleteAt(Alternating, 0) && !CompleteAt(Alternating, 1) && !CompleteAt(Alternating, 2);
    assert !CompleteAt(Alternating, 3) && !CompleteAt(Alternating, 4) && !CompleteAt(Alternating, 5);
    assert CompleteAt(Alternating, 6);
  }

  /** A full board with no complete line is a draw. */
  lemma FullBoardWithoutLineIsDraw()
    ensures IsDraw(Drawn)
  {
    assert forall k :: 0 <= k < |Lines| ==> !CompleteAt(Drawn, k);
  }

  /** O on 0 and 1, X on 3 and 4, O to move: the search completes the top row. */
  const RowThreat: Board := [
    Marked(O), Marked(O), Empty,
    Marked(X), Marked(X), Empty,
    Empty, Empty, Empty
  ]

  lemma {:induction false} SearchCompletesOwnRow(i: nat)
    requires IsHardChoice(RowThreat, O, i)
    ensures i == 2
  {
    var after := RowThreat[2 := Marked(O)];
    assert CompleteAt(after, 0);
    assert ImmediateWin(RowThreat, O, 2);
    HardChoiceTakesFirstImmediateWin(RowThreat, O, i, 2);
  }

  /** X on 0 and 1, O on 3 and 4, X to move (two marks each). */
  const XToWin: Board := [
    Marked(X), Marked(X), Empty,
    Marked(O), Marked(O), Empty,
    Empty, Empty, Empty
  ]

  lemma OAt5CompletesMiddleRow()
    ensures ImmediateWin(XToWin, O, 5)
  {
    var oAt5 := XToWin[5 := Marked(O)];
    assert !CompleteAt(oAt5, 0) && CompleteAt(oAt5, 1);
  }

  lemma OAt2CompletesNothing()
    ensures !ImmediateWin(XToWin, O, 2)
  {
    var oAt2 := XToWin[2 := Marked(O)];
    assert forall k :: 0 <= k < |Lines| ==> !CompleteAt(oAt2, k);
  }

  lemma XAt2CompletesTopRow()
    ensures ImmediateWin(XToWin, X, 2)
  {
    var xAt2 := XToWin[2 := Marked(X)];
    assert CompleteAt(xAt2, 0);
  }

  /** The search as the game runs it for X in computer-vs-computer mode,
      with O hard-coded as the maximising side, picks 5 (blocking O)
      although 2 wins for X at once. */
  lemma {:induction false} HardcodedSearchMissesWinForX(i: nat)
    requires IsHardChoice(XToWin, O, i)
    ensures i == 5
    ensures ImmediateWin(XToWin, X, 2)
  {
    OAt5CompletesMiddleRow();
    OAt2CompletesNothing();
    HardChoiceTakesFirstImmediateWin(XToWin, O, i, 5);
    XAt2CompletesTopRow();
  }

  /** Searching for the side to move, X takes the win at 2. */
  lemma {:induction false} SideToMoveSearchTakesWinForX(i: nat)
    requires IsHardChoice(XToWin, X, i)
    ensures i == 2
  {
    XAt2CompletesTopRow();
    HardChoiceTakesFirstImmediateWin(XToWin, X, i, 2);
  }

  /** Every line passes through one of the cells 2, 5, 6, 7 and 8, so while
      they are all empty no line is complete. */
  lemma NoWinWhileOuterCellsEmpty(b: Board)
    requires b[2] == Empty && b[5] == Empty && b[6] == Empty && b[7] == Empty && b[8] == Empty
    ensures CalculateWinner(b).None?
  {
    assert forall k :: 0 <= k < |Lines| ==> !CompleteAt(b, k);
  }

  /** X on 5 completes no line and leaves cell 2 empty: the game goes on. */
  lemma XAt5KeepsPlaying()
    ensures StatusOf(XToWin[5 := Marked(X)]) == Playing
  {
    var xAt5 := XToWin[5 := Marked(X)];
    assert forall k :: 0 <= k < |Lines| ==> !CompleteAt(xAt5, k);
    assert xAt5[2] == Empty;
  }

  /** XToWin, X to move and still playing, is a consistent match state:
      two marks each and no complete line. */
  lemma XToWinConsistent()
    ensures Consistent(XToWin, true, Playing, None, [])
  {
    NoWinWhileOuterCellsEmpty(XToWin);
    XToWinMarkCounts();
  }

  lemma XToWinMarkCounts()
    ensures MarkCount(XToWin, X) == 2 && MarkCount(XToWin, O) == 2
  {
    assert multiset(XToWin) == multiset{Marked(X), Marked(X), Marked(O), Marked(O)} + multiset{Empty, Empty, Empty, Empty, Empty};
  }

  /** A game in the position XToWin, X to move. */
  method SetUpXToWin(mode: GameMode, difficulty: Difficulty) returns (g: TicTacToe)
    ensures fresh(g) && g.Valid()
    ensures g.board == XToWin && g.isXNext && g.gameStatus == Playing
    ensures g.gameMode == mode && g.difficulty == difficulty
  {
    g := new TicTacToe(mode, difficulty);
    g.board := XToWin;
    XToWinConsistent();
  }

  /** Computer vs computer on Hard, X to move on XToWin: the turn as written,
      searching for O, puts X on 5 and the game goes on. */
  method AsWrittenComputerTurnMissesWin(coin: real, pick: real) returns (g: TicTacToe)
    requires 0.0 <= coin < 1.0 && 0.0 <= pick < 1.0
    ensures g.board == XToWin[5 := Marked(X)] && g.gameStatus == Playing && !g.isXNext
  {
    g := SetUpXToWin(ComputerVsComputer, Hard);
    g.StartComputerTurn();
    var move := g.PlayComputerMove(O, coin, pick);
    assert move.Some? && IsHardChoice(XToWin, O, move.value);
    HardcodedSearchMissesWinForX(move.value);
    assert g.board == XToWin[5 := Marked(X)];
    XAt5KeepsPlaying();
  }

  /** The same turn searched for the side to move: X plays 2 and wins the top row. */
  method ComputerTurnTakesWin(coin: real, pick: real) returns (g: TicTacToe)
    requires 0.0 <= coin < 1.0 && 0.0 <= pick < 1.0
    ensures g.board == XToWin[2 := Marked(X)] && g.gameStatus == Won && g.winner == Some(X)
  {
    g := SetUpXToWin(ComputerVsComputer, Hard);
    g.StartComputerTurn();
    var move := g.ComputerMove(coin, pick);
    SideToMoveSearchTakesWinForX(move.value);
    XAt2CompletesTopRow();
  }

  /** Against the computer: X plays, the computer starts thinking, and New Game
      is pressed before it moves. The reset keeps the thinking flag, so the
      next click, on an empty board with X to move, is refused. */
  method ResetWhileThinkingRefusesClicks() returns (g: TicTacToe)
    ensures g.gameMode == PlayerVsComputer && g.isXNext && g.gameStatus == Playing
    ensures g.isThinking && g.board == EmptyBoard
  {
    g := new TicTacToe(PlayerVsComputer, Easy);
    g.HandleClick(4);
    NoWinWhileOuterCellsEmpty(g.board);
    g.StartComputerTurn();
    g.ResetGame();
    g.HandleClick(0);
  }
}
