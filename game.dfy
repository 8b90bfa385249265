/** The match state of one game: the board, whose turn it is, the status
    and the winner, updated one move at a time by a human click or by the
    computer player. */
module Game {
  import opened Rules
  import opened Moves

  datatype Status = Playing | Won | Draw

  datatype GameMode = PlayerVsPlayer | PlayerVsComputer | ComputerVsComputer

  /** The mark of the side to move: X when `isXNext`. */
  function SideToMove(isXNext: bool): Mark {
    if isXNext then X else O
  }

  function MarkCount(b: Board, m: Mark): nat {
    multiset(b)[Marked(m)]
  }

  /** The computer moves in computer-vs-computer mode, and for O against a human. */
  predicate ShouldComputerMove(mode: GameMode, isXNext: bool): (r: bool)
    ensures mode == PlayerVsPlayer ==> !r
    ensures mode == ComputerVsComputer ==> r
    ensures mode == PlayerVsComputer ==> (r <==> SideToMove(isXNext) == O)
  {
    (mode == PlayerVsComputer && !isXNext) || mode == ComputerVsComputer
  }

  /** The status the board determines: won when a line is complete, drawn
      when the board is full, and still playing otherwise. */
  function StatusOf(b: Board): (r: Status)
    ensures r == Won <==> CalculateWinner(b).Some?
    ensures r == Draw <==> IsDraw(b)
  {
    if CalculateWinner(b).Some? then Won else if IsFull(b) then Draw else Playing
  }

  /** X and O have alternated, X first: X is to move exactly when the counts are equal. */
  predicate TurnsAlternate(b: Board, isXNext: bool) {
    MarkCount(b, X) == MarkCount(b, O) + (if isXNext then 0 else 1)
  }

  /** The match state agrees with its board. */
  ghost predicate Consistent(b: Board, isXNext: bool, status: Status, winner: Option<Mark>, line: seq<nat>) {
    status == StatusOf(b) &&
    (match CalculateWinner(b)
     case Some(w) => winner == Some(w.winner) && line == w.line
     case None => winner == None && line == []) &&
    TurnsAlternate(b, isXNext)
  }

  lemma InitialStateConsistent()
    ensures Consistent(EmptyBoard, true, Playing, None, [])
  {
    EmptyBoardHasNoWinner();
  }

  /** Playing the side to move on an empty cell keeps the turns alternating. */
  lemma {:induction false} MoveKeepsTurnsAlternating(b: Board, isXNext: bool, i: nat)
    requires IsLegalMove(b, i) && TurnsAlternate(b, isXNext)
    ensures TurnsAlternate(b[i := Marked(SideToMove(isXNext))], !isXNext)
  {
    var m := Marked(SideToMove(isXNext));
    assert multiset(b[i := m]) == multiset(b) - multiset{Empty} + multiset{m};
  }

  class TicTacToe {
    var board: Board
    var isXNext: bool
    var gameMode: GameMode
    var difficulty: Difficulty
    var gameStatus: Status
    var winner: Option<Mark>
    var winningLine: seq<nat>
    /** Set when a computer move is scheduled, cleared when it has been played. */
    var isThinking: bool

    /** The status, winner and winning line are those the board determines,
        and X and O have alternated starting with X. */
    ghost predicate Valid()
      reads this
    {
      Consistent(board, isXNext, gameStatus, winner, winningLine)
    }

    /** A new game on an empty board, X to move. */
    constructor (gameMode: GameMode, difficulty: Difficulty)
      ensures Valid()
      ensures board == EmptyBoard && isXNext && gameStatus == Playing
      ensures winner == None && winningLine == [] && !isThinking
      ensures this.gameMode == gameMode && this.difficulty == difficulty
    {
      board := EmptyBoard;
      isXNext := true;
      this.gameMode := gameMode;
      this.difficulty := difficulty;
      gameStatus := Playing;
      winner := None;
      winningLine := [];
      isThinking := false;
      new;
      assert Valid() by { InitialStateConsistent(); }
    }

    /** `resetGame`: back to an empty board with X to move; mode, difficulty
        and the thinking flag are left as they were. */
    method ResetGame()
      modifies this
      ensures Valid()
      ensures board == EmptyBoard && isXNext && gameStatus == Playing
      ensures winner == None && winningLine == []
      ensures gameMode == old(gameMode) && difficulty == old(difficulty) && isThinking == old(isThinking)
    {
      board := EmptyBoard;
      isXNext := true;
      gameStatus := Playing;
      winner := None;
      winningLine := [];
      assert Valid() by { InitialStateConsistent(); }
    }

    /** `makeMove`: the side to move marks `index`, the turn passes, and the
        status becomes won or draw when the new board says so. */
    method MakeMove(index: nat)
      requires index < 9
      modifies this
      ensures board == old(board)[index := Marked(SideToMove(old(isXNext)))]
      ensures isXNext == !old(isXNext)
      ensures gameMode == old(gameMode) && difficulty == old(difficulty) && isThinking == old(isThinking)
      ensures CalculateWinner(board).Some? ==>
        gameStatus == Won && winner == Some(CalculateWinner(board).value.winner) &&
        winningLine == CalculateWinner(board).value.line
      ensures CalculateWinner(board).None? ==>
        winner == old(winner) && winningLine == old(winningLine) &&
        gameStatus == (if IsDraw(board) then Draw else old(gameStatus))
      ensures old(Valid()) && old(gameStatus) == Playing && old(board)[index] == Empty ==> Valid()
    {
      ghost var wasLegal := IsLegalMove(board, index) && TurnsAlternate(board, isXNext);
      if wasLegal {
        MoveKeepsTurnsAlternating(board, isXNext, index);
      }
      var newBoard := board[index := Marked(if isXNext then X else O)];
      board := newBoard;
      isXNext := !isXNext;
      var result := CalculateWinner(newBoard);
      if result.Some? {
        winner := Some(result.value.winner);
        winningLine := result.value.line;
        gameStatus := Won;
      } else if IsDraw(newBoard) {
        gameStatus := Draw;
      }
    }

    /** `handleClick`: a click on an occupied cell, after the game has ended,
        while the computer is thinking, on the computer's turn or in
        computer-vs-computer mode changes nothing; otherwise the side to move
        plays there. */
    method HandleClick(index: nat)
      requires index < 9 && Valid()
      modifies this
      ensures Valid()
      ensures gameMode == old(gameMode) && difficulty == old(difficulty) && isThinking == old(isThinking)
      ensures old(board)[index] != Empty || old(gameStatus) != Playing || old(isThinking) ||
              (old(gameMode) == PlayerVsComputer && !old(isXNext)) || old(gameMode) == ComputerVsComputer ==>
        unchanged(this)
      ensures old(board)[index] == Empty && old(gameStatus) == Playing && !old(isThinking) &&
              !(old(gameMode) == PlayerVsComputer && !old(isXNext)) && old(gameMode) != ComputerVsComputer ==>
        board == old(board)[index := Marked(SideToMove(old(isXNext)))] && isXNext == !old(isXNext)
    {
      if board[index] != Empty || gameStatus != Playing || isThinking {
        return;
      }
      if gameMode == PlayerVsComputer && !isXNext {
        return;
      }
      if gameMode == ComputerVsComputer {
        return;
      }
      MakeMove(index);
    }

    /** The effect that schedules the computer's move: when the game is on and
        the computer is to move, the thinking flag is set; nothing else changes. */
    method StartComputerTurn()
      modifies this
      ensures isThinking == (old(isThinking) || (gameStatus == Playing && ShouldComputerMove(gameMode, isXNext)))
      ensures board == old(board) && isXNext == old(isXNext) && gameMode == old(gameMode)
      ensures difficulty == old(difficulty) && gameStatus == old(gameStatus)
      ensures winner == old(winner) && winningLine == old(winningLine)
      ensures old(Valid()) ==> Valid()
    {
      if gameStatus == Playing && ShouldComputerMove(gameMode, isXNext) {
        isThinking := true;
      }
    }

    /** The scheduled computer move: when the game is on and the computer is to
        move, ask for a move searched for `searchSide` and play it for the side
        to move, then clear the thinking flag. `coin` and `pick` are the draws
        of `Math.random()`. The game as written searches for O on every
        computer turn (`searchSide == O`). */
    method PlayComputerMove(searchSide: Mark, coin: real, pick: real) returns (move: Option<nat>)
      requires Valid() && 0.0 <= coin < 1.0 && 0.0 <= pick < 1.0
      modifies this
      ensures Valid()
      ensures gameMode == old(gameMode) && difficulty == old(difficulty)
      ensures !(old(gameStatus) == Playing && ShouldComputerMove(old(gameMode), old(isXNext))) ==>
        move == None && unchanged(this)
      ensures old(gameStatus) == Playing && ShouldComputerMove(old(gameMode), old(isXNext)) ==>
        move.Some? && IsLegalMove(old(board), move.value) &&
        board == old(board)[move.value := Marked(SideToMove(old(isXNext)))] &&
        isXNext == !old(isXNext) && !isThinking
      ensures move.Some? ==> ComputerChoice(old(difficulty), old(board), searchSide, coin, pick, move)
    {
      if gameStatus != Playing || !ShouldComputerMove(gameMode, isXNext) {
        return None;
      }
      move := AIMove(difficulty, board, searchSide, coin, pick);
      if move.Some? {
        MakeMove(move.value);
      }
      isThinking := false;
    }

    /** The computer's move searched for the side to move, so that X's computer
        in computer-vs-computer mode plays for X. */
    method ComputerMove(coin: real, pick: real) returns (move: Option<nat>)
      requires Valid() && 0.0 <= coin < 1.0 && 0.0 <= pick < 1.0
      modifies this
      ensures Valid()
      ensures gameMode == old(gameMode) && difficulty == old(difficulty)
      ensures !(old(gameStatus) == Playing && ShouldComputerMove(old(gameMode), old(isXNext))) ==>
        move == None && unchanged(this)
      ensures old(gameStatus) == Playing && ShouldComputerMove(old(gameMode), old(isXNext)) ==>
        move.Some? && IsLegalMove(old(board), move.value) &&
        board == old(board)[move.value := Marked(SideToMove(old(isXNext)))] &&
        isXNext == !old(isXNext) && !isThinking
      ensures move.Some? ==> ComputerChoice(old(difficulty), old(board), SideToMove(old(isXNext)), coin, pick, move)
    {
      move := PlayComputerMove(SideToMove(isXNext), coin, pick);
    }
  }
}
