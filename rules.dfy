/** The rules of 3x3 tic-tac-toe: the board, the eight winning lines,
    winner and draw detection, and the list of empty cells. */
module Rules {

  datatype Option<+T> = None | Some(value: T)

  datatype Mark = X | O

  /** A cell is empty (`null` in the game) or holds one of the two marks. */
  datatype Cell = Empty | Marked(mark: Mark)

  /** The board is a row-major sequence of nine cells: index = row * 3 + col. */
  type Board = b: seq<Cell> | |b| == 9
    witness [Empty, Empty, Empty, Empty, Empty, Empty, Empty, Empty, Empty]

  const EmptyBoard: Board := seq(9, _ => Empty)

  function Opponent(m: Mark): (r: Mark)
    ensures r != m
  {
    if m == X then O else X
  }

  /** The eight winning lines in scan order: rows, columns, diagonals. */
  const Lines: seq<seq<nat>> := [
    [0, 1, 2], [3, 4, 5], [6, 7, 8],
    [0, 3, 6], [1, 4, 7], [2, 5, 8],
    [0, 4, 8], [2, 4, 6]
  ]

  predicate IsLine(line: seq<nat>) {
    |line| == 3 && line[0] < 9 && line[1] < 9 && line[2] < 9
  }

  lemma LinesWellFormed()
    ensures |Lines| == 8
    ensures forall k :: 0 <= k < |Lines| ==> IsLine(Lines[k])
  {
  }

  /** All three cells of `line` hold the same mark. */
  predicate LineComplete(b: Board, line: seq<nat>)
    requires IsLine(line)
  {
    b[line[0]] != Empty && b[line[0]] == b[line[1]] && b[line[0]] == b[line[2]]
  }

  predicate CompleteAt(b: Board, k: nat)
    requires k < |Lines|
  {
    LinesWellFormed();
    LineComplete(b, Lines[k])
  }

  /** The result of `calculateWinner`: the winning mark and its line. */
  datatype WinResult = WinResult(winner: Mark, line: seq<nat>)

  /** Index of the first complete line at position `k` or later in scan order. */
  function FirstCompleteLine(b: Board, k: nat): (r: Option<nat>)
    requires k <= |Lines|
    ensures r.Some? ==> k <= r.value < |Lines| && CompleteAt(b, r.value)
    ensures r.Some? ==> forall j :: k <= j < r.value ==> !CompleteAt(b, j)
    ensures r.None? ==> forall j :: k <= j < |Lines| ==> !CompleteAt(b, j)
    decreases |Lines| - k
  {
    if k == |Lines| then None
    else if CompleteAt(b, k) then Some(k)
    else FirstCompleteLine(b, k + 1)
  }

  /** `calculateWinner`: the first complete line in scan order, with its mark,
      or None when no line is complete. */
  function CalculateWinner(b: Board): (r: Option<WinResult>)
    ensures r.None? <==> forall k :: 0 <= k < |Lines| ==> !CompleteAt(b, k)
    ensures r.Some? ==> r.value.line in Lines && IsLine(r.value.line)
    ensures r.Some? ==> forall i :: 0 <= i < 3 ==> b[r.value.line[i]] == Marked(r.value.winner)
    ensures r.Some? ==> forall k :: 0 <= k < |Lines| && Lines[k] == r.value.line ==>
                          forall j :: 0 <= j < k ==> !CompleteAt(b, j)
  {
    LinesWellFormed();
    match FirstCompleteLine(b, 0)
    case None => None
    case Some(k) =>
      var line := Lines[k];
      assert forall k' :: 0 <= k' < |Lines| && Lines[k'] == line ==> k' == k;
      Some(WinResult(b[line[0]].mark, line))
  }

  /** Every cell holds a mark. */
  predicate IsFull(b: Board) {
    forall i :: 0 <= i < 9 ==> b[i] != Empty
  }

  /** `isDraw`: the board is full and no line is complete. */
  predicate IsDraw(b: Board): (r: bool)
    ensures r <==>
      (forall i :: 0 <= i < 9 ==> b[i] != Empty) && (forall k :: 0 <= k < |Lines| ==> !CompleteAt(b, k))
  {
    IsFull(b) && CalculateWinner(b).None?
  }

  /** The empty indices at position `i` or later, in increasing order. */
  function AvailableMovesFrom(b: Board, i: nat): (r: seq<nat>)
    requires i <= 9
    ensures forall k :: 0 <= k < |r| ==> i <= r[k] < 9 && b[r[k]] == Empty
    ensures forall j :: i <= j < 9 && b[j] == Empty ==> j in r
    ensures forall k, l :: 0 <= k < l < |r| ==> r[k] < r[l]
    ensures |r| <= 9 - i
    decreases 9 - i
  {
    if i == 9 then []
    else if b[i] == Empty then [i] + AvailableMovesFrom(b, i + 1)
    else AvailableMovesFrom(b, i + 1)
  }

  /** The `availableMoves` list: the indices of the empty cells, ascending. */
  function AvailableMoves(b: Board): (r: seq<nat>)
    ensures forall k :: 0 <= k < |r| ==> r[k] < 9 && b[r[k]] == Empty
    ensures forall j :: 0 <= j < 9 && b[j] == Empty ==> j in r
    ensures forall k, l :: 0 <= k < l < |r| ==> r[k] < r[l]
    ensures |r| <= 9
  {
    AvailableMovesFrom(b, 0)
  }

  /** The number of empty cells. */
  function EmptyCount(b: Board): nat {
    multiset(b)[Empty]
  }

  lemma {:induction false} EmptyCountZero(b: Board)
    ensures EmptyCount(b) == 0 <==> IsFull(b)
  {
    if !IsFull(b) {
      var j :| 0 <= j < 9 && b[j] == Empty;
      assert b[j] in multiset(b);
    }
  }

  lemma EmptyCountAtMost9(b: Board)
    ensures EmptyCount(b) <= 9
  {
    assert |multiset(b)| == 9;
  }

  /** The empty board has no winner and is not full. */
  lemma EmptyBoardHasNoWinner()
    ensures CalculateWinner(EmptyBoard) == None
    ensures !IsFull(EmptyBoard) && !IsDraw(EmptyBoard)
  {
    assert EmptyBoard[0] == Empty;
  }
}
