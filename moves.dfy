/** Move selection for the computer player: a random move (Easy), a
    coin flip between random and minimax (Medium), and a full-depth
    minimax search (Hard).

    The game hard-codes 'O' as the maximising side; here that side is the
    parameter `active`, and the game's own behaviour is `active == O`. */
module Moves {
  import opened Rules

  /** Sentinels that stand for -Infinity and Infinity: every real score lies in [-10, 10]. */
  const NegInfinity: int := -1000
  const PosInfinity: int := 1000

  datatype Difficulty = Easy | Medium | Hard

  function Max(a: int, b: int): int { if a >= b then a else b }

  function Min(a: int, b: int): int { if a <= b then a else b }

  /** The mark placed at a ply: the active mark when maximising, its opponent otherwise. */
  function PlyMark(isMaximizing: bool, active: Mark): Mark {
    if isMaximizing then active else Opponent(active)
  }

  /** Cell `i` is a legal target: on the board and empty. */
  predicate IsLegalMove(b: Board, i: nat) {
    i < 9 && b[i] == Empty
  }

  // ---------------------------------------------------------------------------
  // Easy: a random empty cell

  /** `Math.floor(rand * n)` for `rand` drawn from [0, 1). */
  function PickIndex(rand: real, n: nat): (k: nat)
    requires 0.0 <= rand < 1.0 && n > 0
    ensures k < n
  {
    var x := rand * n as real;
    assert x < n as real by {
      assert (1.0 - rand) * n as real > 0.0;
    }
    x.Floor
  }

  /** Drawing `rand` = k / n picks position k. */
  lemma PickIndexHits(k: nat, n: nat)
    requires k < n
    ensures 0.0 <= k as real / n as real < 1.0
    ensures PickIndex(k as real / n as real, n) == k
  {
    var rand := k as real / n as real;
    assert rand * n as real == k as real;
  }

  /** `getRandomMove`: the available move at position Floor(rand * count);
      None (the source's `undefined`) when the board is full. */
  function RandomMove(squares: Board, rand: real): (move: Option<nat>)
    requires 0.0 <= rand < 1.0
    ensures move.None? <==> IsFull(squares)
    ensures move.Some? ==> IsLegalMove(squares, move.value)
  {
    var moves := AvailableMoves(squares);
    EmptyCountZero(squares);
    if |moves| == 0 then None else Some(moves[PickIndex(rand, |moves|)])
  }

  /** Drawing `rand` = k / n, n the number of empty cells, picks the k-th of them. */
  lemma RandomMoveAt(squares: Board, k: nat)
    requires k < |AvailableMoves(squares)|
    ensures 0.0 <= k as real / |AvailableMoves(squares)| as real < 1.0
    ensures RandomMove(squares, k as real / |AvailableMoves(squares)| as real) == Some(AvailableMoves(squares)[k])
  {
    PickIndexHits(k, |AvailableMoves(squares)|);
  }

  /** Every empty cell is the random move for some draw of `rand`. */
  lemma {:induction false} RandomMoveReachesEveryEmptyCell(squares: Board, j: nat)
    requires IsLegalMove(squares, j)
    ensures exists rand: real :: 0.0 <= rand < 1.0 && RandomMove(squares, rand) == Some(j)
  {
    var moves := AvailableMoves(squares);
    assert j in moves;
    var k :| 0 <= k < |moves| && moves[k] == j;
    RandomMoveAt(squares, k);
  }

  // ---------------------------------------------------------------------------
  // Hard: minimax

  /** The score `minimax(board, depth, isMaximizing)` computes: 10 - depth when
      the active mark has won, depth - 10 when its opponent has, 0 on a full
      board, and otherwise the best child score for the side to move. */
  function MinimaxValue(b: Board, depth: nat, isMaximizing: bool, active: Mark): int
    decreases EmptyCount(b), 10
  {
    match CalculateWinner(b)
    case Some(w) => if w.winner == active then 10 - depth else depth - 10
    case None => if IsFull(b) then 0 else ChildrenBest(b, depth, isMaximizing, active, 9)
  }

  /** The accumulator `bestScore` after the loop has visited cells 0 .. n-1. */
  function ChildrenBest(b: Board, depth: nat, isMaximizing: bool, active: Mark, n: nat): int
    requires n <= 9
    decreases EmptyCount(b), n
  {
    if n == 0 then (if isMaximizing then NegInfinity else PosInfinity)
    else
      var best := ChildrenBest(b, depth, isMaximizing, active, n - 1);
      if b[n - 1] != Empty then best
      else
        var m := PlyMark(isMaximizing, active);
        var score := MinimaxValue(b[n - 1 := Marked(m)], depth + 1, !isMaximizing, active);
        if isMaximizing then Max(score, best) else Min(score, best)
  }

  /** Scores stay within [depth - 10, 10 - depth]; a decided board scores
      positive exactly when the active mark won; an undecided one scores
      within one step less. */
  lemma {:induction false} MinimaxValueBounds(b: Board, depth: nat, isMaximizing: bool, active: Mark)
    requires depth + EmptyCount(b) <= 9
    ensures depth - 10 <= MinimaxValue(b, depth, isMaximizing, active) <= 10 - depth
    ensures CalculateWinner(b).Some? ==>
      (MinimaxValue(b, depth, isMaximizing, active) > 0 <==> CalculateWinner(b).value.winner == active)
    ensures CalculateWinner(b).None? ==>
      depth - 9 <= MinimaxValue(b, depth, isMaximizing, active) <= 9 - depth
    decreases EmptyCount(b), 10
  {
    if CalculateWinner(b).None? && !IsFull(b) {
      assert HasEmptyBelow(b, 9);
      ChildrenBestBounds(b, depth, isMaximizing, active, 9);
    }
  }

  /** Some cell among 0 .. n-1 is empty. */
  ghost predicate HasEmptyBelow(b: Board, n: nat) {
    exists j :: 0 <= j < n && j < 9 && b[j] == Empty
  }

  /** With no empty cell among 0 .. n-1, the accumulator still holds its sentinel. */
  lemma {:induction false} ChildrenBestNoEmpty(b: Board, depth: nat, isMaximizing: bool, active: Mark, n: nat)
    requires n <= 9 && !HasEmptyBelow(b, n)
    ensures ChildrenBest(b, depth, isMaximizing, active, n) == (if isMaximizing then NegInfinity else PosInfinity)
  {
    if n > 0 {
      assert b[n - 1] != Empty;
      assert !HasEmptyBelow(b, n - 1);
      ChildrenBestNoEmpty(b, depth, isMaximizing, active, n - 1);
    }
  }

  /** Once an empty cell has been visited, the accumulator holds a child score. */
  lemma {:induction false} ChildrenBestBounds(b: Board, depth: nat, isMaximizing: bool, active: Mark, n: nat)
    requires n <= 9 && depth + EmptyCount(b) <= 9 && HasEmptyBelow(b, n)
    ensures depth - 9 <= ChildrenBest(b, depth, isMaximizing, active, n) <= 9 - depth
    decreases EmptyCount(b), n
  {
    ChildrenBestStep(b, depth, isMaximizing, active, n - 1);
    if b[n - 1] == Empty {
      var child := b[n - 1 := Marked(PlyMark(isMaximizing, active))];
      MinimaxValueBounds(child, depth + 1, !isMaximizing, active);
      if HasEmptyBelow(b, n - 1) {
        ChildrenBestBounds(b, depth, isMaximizing, active, n - 1);
      } else {
        ChildrenBestNoEmpty(b, depth, isMaximizing, active, n - 1);
      }
    } else {
      assert HasEmptyBelow(b, n - 1);
      ChildrenBestBounds(b, depth, isMaximizing, active, n - 1);
    }
  }

  /** One more step of the loop: visiting cell `i` folds in its child's score
      when it is empty and leaves the accumulator alone otherwise. */
  lemma ChildrenBestStep(b: Board, depth: nat, isMaximizing: bool, active: Mark, i: nat)
    requires i < 9
    ensures b[i] != Empty ==>
      ChildrenBest(b, depth, isMaximizing, active, i + 1) == ChildrenBest(b, depth, isMaximizing, active, i)
    ensures b[i] == Empty ==>
      var score := MinimaxValue(b[i := Marked(PlyMark(isMaximizing, active))], depth + 1, !isMaximizing, active);
      var best := ChildrenBest(b, depth, isMaximizing, active, i);
      ChildrenBest(b, depth, isMaximizing, active, i + 1) == if isMaximizing then Max(score, best) else Min(score, best)
  {
  }

  /** Marking an empty cell leaves one empty cell fewer. */
  lemma EmptyCountDrops(b: Board, i: nat, m: Mark)
    requires i < 9 && b[i] == Empty
    ensures EmptyCount(b[i := Marked(m)]) == EmptyCount(b) - 1
  {
    assert multiset(b[i := Marked(m)]) == multiset(b) - multiset{Empty} + multiset{Marked(m)};
  }

  /** `minimax`: searches the board in place, placing and undoing one mark per
      branch; on return the board is as it was. */
  method Minimax(board: array<Cell>, depth: nat, isMaximizing: bool, active: Mark) returns (score: int)
    requires board.Length == 9
    modifies board
    ensures board[..] == old(board[..])
    ensures score == MinimaxValue(old(board[..]), depth, isMaximizing, active)
    decreases EmptyCount(board[..])
  {
    var result := CalculateWinner(board[..]);
    if result.Some? {
      return if result.value.winner == active then 10 - depth else depth - 10;
    }
    if IsFull(board[..]) {
      return 0;
    }
    // The source writes the maximising and minimising loops out separately;
    // they differ only in the mark placed and in Max versus Min.
    var mark := PlyMark(isMaximizing, active);
    var bestScore := if isMaximizing then NegInfinity else PosInfinity;
    for i := 0 to 9
      invariant board[..] == old(board[..])
      invariant bestScore == ChildrenBest(old(board[..]), depth, isMaximizing, active, i)
    {
      ChildrenBestStep(old(board[..]), depth, isMaximizing, active, i);
      if board[i] == Empty {
        ghost var before := board[..];
        board[i] := Marked(mark);
        assert board[..] == before[i := Marked(mark)];
        EmptyCountDrops(before, i, mark);
        var s := Minimax(board, depth + 1, !isMaximizing, active);
        board[i] := Empty;
        assert board[..] == before;
        bestScore := if isMaximizing then Max(s, bestScore) else Min(s, bestScore);
      }
    }
    return bestScore;
  }

  /** The score of playing the active mark at `i`, the opponent to reply. */
  function MoveScore(b: Board, active: Mark, i: nat): int
    requires i < 9
  {
    MinimaxValue(b[i := Marked(active)], 0, false, active)
  }

  /** `i` is the move the search picks: empty, of maximum score, and the first
      such in index order. */
  ghost predicate IsHardChoice(b: Board, active: Mark, i: nat) {
    IsLegalMove(b, i) &&
    (forall j :: 0 <= j < 9 && b[j] == Empty ==> MoveScore(b, active, j) <= MoveScore(b, active, i)) &&
    (forall j :: 0 <= j < i && b[j] == Empty ==> MoveScore(b, active, j) < MoveScore(b, active, i))
  }

  /** Playing at `i` completes a line of the active mark at once. */
  ghost predicate ImmediateWin(b: Board, active: Mark, i: nat) {
    IsLegalMove(b, i) && CalculateWinner(b[i := Marked(active)]) != None &&
    CalculateWinner(b[i := Marked(active)]).value.winner == active
  }

  /** Every move scores within [-10, 10], and exactly the immediate wins score 10. */
  lemma {:induction false} MoveScoreBounds(b: Board, active: Mark, i: nat)
    requires IsLegalMove(b, i)
    ensures -10 <= MoveScore(b, active, i) <= 10
    ensures MoveScore(b, active, i) == 10 <==> ImmediateWin(b, active, i)
  {
    EmptyCountAtMost9(b);
    MinimaxValueBounds(b[i := Marked(active)], 0, false, active);
  }

  /** `getHardMove`: tries every empty cell of a copy of `squares` and keeps the
      first one with the strictly greatest score; None when no cell is empty. */
  method HardMove(squares: Board, active: Mark) returns (move: Option<nat>)
    ensures move.None? <==> IsFull(squares)
    ensures move.Some? ==> IsHardChoice(squares, active, move.value)
  {
    var bestScore := NegInfinity;
    move := None;
    var boardCopy := new Cell[9](i requires 0 <= i < 9 => squares[i]);
    for i := 0 to 9
      invariant boardCopy[..] == squares
      invariant move.None? ==> bestScore == NegInfinity && forall j :: 0 <= j < i ==> squares[j] != Empty
      invariant move.Some? ==> move.value < i && IsLegalMove(squares, move.value)
      invariant move.Some? ==> bestScore == MoveScore(squares, active, move.value)
      invariant move.Some? ==> forall j :: 0 <= j < i && squares[j] == Empty ==>
                                 MoveScore(squares, active, j) <= bestScore
      invariant move.Some? ==> forall j :: 0 <= j < move.value && squares[j] == Empty ==>
                                 MoveScore(squares, active, j) < bestScore
    {
      if boardCopy[i] == Empty {
        boardCopy[i] := Marked(active);
        var score := Minimax(boardCopy, 0, false, active);
        boardCopy[i] := Empty;
        assert boardCopy[..] == squares;
        MoveScoreBounds(squares, active, i);
        if score > bestScore {
          bestScore := score;
          move := Some(i);
        }
      }
    }
  }

  /** When some move wins at once, the search picks the first such move. */
  lemma {:induction false} HardChoiceTakesFirstImmediateWin(b: Board, active: Mark, i: nat, k: nat)
    requires IsHardChoice(b, active, i)
    requires ImmediateWin(b, active, k)
    requires forall j :: 0 <= j < k ==> !ImmediateWin(b, active, j)
    ensures i == k
  {
    MoveScoreBounds(b, active, i);
    MoveScoreBounds(b, active, k);
  }

  /** The search's choice is determined by the board and the active mark. */
  lemma HardChoiceIsUnique(b: Board, active: Mark, i: nat, j: nat)
    requires IsHardChoice(b, active, i) && IsHardChoice(b, active, j)
    ensures i == j
  {
  }

  // ---------------------------------------------------------------------------
  // Medium and the dispatch on difficulty

  /** `getMediumMove`: the minimax move when `coin > 0.5`, a random move otherwise. */
  method MediumMove(squares: Board, active: Mark, coin: real, pick: real) returns (move: Option<nat>)
    requires 0.0 <= coin < 1.0 && 0.0 <= pick < 1.0
    ensures move.None? <==> IsFull(squares)
    ensures move.Some? ==> IsLegalMove(squares, move.value)
    ensures coin > 0.5 && move.Some? ==> IsHardChoice(squares, active, move.value)
    ensures coin <= 0.5 ==> move == RandomMove(squares, pick)
  {
    if coin > 0.5 {
      move := HardMove(squares, active);
    } else {
      move := RandomMove(squares, pick);
    }
  }

  /** What each difficulty promises of the move it picks for `active`:
      Easy the random move for `coin`, Medium the random move for `pick` when
      `coin <= 0.5` and the minimax choice otherwise, Hard the minimax choice. */
  ghost predicate ComputerChoice(difficulty: Difficulty, squares: Board, active: Mark, coin: real, pick: real,
                                 move: Option<nat>)
    requires 0.0 <= coin < 1.0 && 0.0 <= pick < 1.0
  {
    (difficulty == Easy ==> move == RandomMove(squares, coin)) &&
    (difficulty == Medium && coin <= 0.5 ==> move == RandomMove(squares, pick)) &&
    (difficulty == Medium && coin > 0.5 && move.Some? ==> IsHardChoice(squares, active, move.value)) &&
    (difficulty == Hard && move.Some? ==> IsHardChoice(squares, active, move.value))
  }

  /** `getAIMove`: dispatches on the difficulty. `coin` and `pick` are the
      successive values of `Math.random()` the strategies draw. */
  method AIMove(difficulty: Difficulty, squares: Board, active: Mark, coin: real, pick: real)
    returns (move: Option<nat>)
    requires 0.0 <= coin < 1.0 && 0.0 <= pick < 1.0
    ensures move.None? <==> IsFull(squares)
    ensures move.Some? ==> IsLegalMove(squares, move.value)
    ensures ComputerChoice(difficulty, squares, active, coin, pick, move)
  {
    match difficulty
    case Easy =>
      move := RandomMove(squares, coin);
    case Medium =>
      move := MediumMove(squares, active, coin, pick);
    case Hard =>
      move := HardMove(squares, active);
  }
}
