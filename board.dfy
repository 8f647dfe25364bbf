/**
 * The Connect Four grid as a value: 6 rows by 7 columns of integers, row 0 at the
 * top and row 5 at the bottom (pieces fall towards the largest row index).
 * A cell holds 0 (empty), 1 or 2.
 */
module Board {
  const Rows: int := 6
  const Cols: int := 7

  type Grid = seq<seq<int>>

  predicate WellFormed(g: Grid) {
    |g| == Rows && forall r :: 0 <= r < Rows ==> |g[r]| == Cols
  }

  /** The grid bounds tested by the tracing loop of `find_four`: 0 <= r <= 5 and 0 <= c <= 6. */
  predicate InBounds(r: int, c: int) {
    0 <= r < Rows && 0 <= c < Cols
  }

  /** Every cell is empty or holds a piece of player 1 or 2. */
  predicate ValidCells(g: Grid)
    requires WellFormed(g)
  {
    forall r, c :: 0 <= r < Rows && 0 <= c < Cols ==> 0 <= g[r][c] <= 2
  }

  /** The board a new game starts from, all zeros. */
  function EmptyGrid(): (g: Grid)
    ensures WellFormed(g) && ValidCells(g)
    ensures forall r, c :: 0 <= r < Rows && 0 <= c < Cols ==> g[r][c] == 0
  {
    seq(Rows, _ => seq(Cols, _ => 0))
  }

  /** The value of a 6 x 7 array, cell by cell. */
  function Snapshot(a: array2<int>): (g: Grid)
    requires a.Length0 == Rows && a.Length1 == Cols
    reads a
    ensures WellFormed(g)
    ensures forall r, c :: 0 <= r < Rows && 0 <= c < Cols ==> g[r][c] == a[r, c]
  {
    seq(Rows, r requires 0 <= r < Rows reads a =>
      seq(Cols, c requires 0 <= c < Cols reads a => a[r, c]))
  }

  // ---------------------------------------------------------------------------
  // Legal moves

  /** Column `c` has an empty cell. */
  predicate HasEmpty(g: Grid, c: int)
    requires WellFormed(g) && 0 <= c < Cols
  {
    exists r :: 0 <= r < Rows && g[r][c] == 0
  }

  /** `board[:, c].min() == 0`: some cell of the column is 0 and none is below 0. */
  predicate ColumnOpen(g: Grid, c: int)
    requires WellFormed(g) && 0 <= c < Cols
    ensures ValidCells(g) ==> (ColumnOpen(g, c) <==> HasEmpty(g, c))
  {
    HasEmpty(g, c) && forall r :: 0 <= r < Rows ==> g[r][c] >= 0
  }

  /** `board.min() > 0`: no cell is empty, so no column is open. */
  predicate IsFull(g: Grid)
    requires WellFormed(g)
    ensures IsFull(g) ==> forall c :: 0 <= c < Cols ==> !ColumnOpen(g, c)
  {
    forall r, c :: 0 <= r < Rows && 0 <= c < Cols ==> g[r][c] > 0
  }

  /** `possible_moves`: the columns, in increasing order, whose minimum is 0. */
  function PossibleMoves(g: Grid): (moves: seq<int>)
    requires WellFormed(g)
    ensures forall i, j :: 0 <= i < j < |moves| ==> moves[i] < moves[j]
    ensures forall i :: 0 <= i < |moves| ==> 0 <= moves[i] < Cols
    ensures forall c :: 0 <= c < Cols ==> (c in moves <==> ColumnOpen(g, c))
  {
    OpenColumnsFrom(g, 0)
  }

  /** The open columns among `c`, `c + 1`, ..., 6, in increasing order. */
  function OpenColumnsFrom(g: Grid, c: int): (moves: seq<int>)
    requires WellFormed(g) && 0 <= c <= Cols
    decreases Cols - c
    ensures forall i, j :: 0 <= i < j < |moves| ==> moves[i] < moves[j]
    ensures forall i :: 0 <= i < |moves| ==> c <= moves[i] < Cols
    ensures forall k :: c <= k < Cols ==> (k in moves <==> ColumnOpen(g, k))
  {
    if c == Cols then []
    else (if ColumnOpen(g, c) then [c] else []) + OpenColumnsFrom(g, c + 1)
  }

  /** A possible move is a column on the board whose minimum is 0. */
  lemma PossibleMoveOpen(g: Grid, c: int)
    requires WellFormed(g) && c in PossibleMoves(g)
    ensures 0 <= c < Cols && ColumnOpen(g, c) && HasEmpty(g, c)
  {
    var moves := PossibleMoves(g);
    var i :| 0 <= i < |moves| && moves[i] == c;
  }

  /** No legal move is left exactly when the board is full (the test `is_over` uses). */
  lemma PossibleMovesEmptyIffFull(g: Grid)
    requires WellFormed(g)
    ensures ValidCells(g) ==> (PossibleMoves(g) == [] <==> IsFull(g))
  {
    var moves := PossibleMoves(g);
    if !ValidCells(g) {
    } else if moves == [] {
      forall r, c | 0 <= r < Rows && 0 <= c < Cols ensures g[r][c] > 0 {
        assert c !in moves;
        assert !ColumnOpen(g, c);
      }
    } else {
      var c := moves[0];
      assert ColumnOpen(g, c);
      var r :| 0 <= r < Rows && g[r][c] == 0;
    }
  }

  /** On a board of 0, 1 and 2 only, the possible moves are exactly the columns holding a 0. */
  lemma PossibleMovesHoldEmpty(g: Grid, c: int)
    requires WellFormed(g) && ValidCells(g) && 0 <= c < Cols
    ensures c in PossibleMoves(g) <==> HasEmpty(g, c)
  {
  }

  // ---------------------------------------------------------------------------
  // Dropping a piece

  /** `np.max(np.where(board[:, c] == 0))`: the largest row index of an empty cell of column `c`. */
  function LowestEmpty(g: Grid, c: int): (row: int)
    requires WellFormed(g) && 0 <= c < Cols && HasEmpty(g, c)
    ensures 0 <= row < Rows && g[row][c] == 0
    ensures forall r :: row < r < Rows ==> g[r][c] != 0
  {
    LastEmptyUpTo(g, c, Rows - 1)
  }

  /** The largest row index `<= top` of an empty cell of column `c`. */
  function LastEmptyUpTo(g: Grid, c: int, top: int): (row: int)
    requires WellFormed(g) && 0 <= c < Cols && top < Rows
    requires exists r :: 0 <= r <= top && g[r][c] == 0
    decreases top
    ensures 0 <= row <= top && g[row][c] == 0
    ensures forall r :: row < r <= top ==> g[r][c] != 0
  {
    if g[top][c] == 0 then top else LastEmptyUpTo(g, c, top - 1)
  }

  /**
   * The row `make_move` writes to, computed on the array as `np.max(np.where(...))`
   * does: scan the whole column and keep the last row index holding 0.
   */
  method LowestEmptyRow(a: array2<int>, c: int) returns (line: int)
    requires a.Length0 == Rows && a.Length1 == Cols && 0 <= c < Cols
    requires HasEmpty(Snapshot(a), c)
    ensures line == LowestEmpty(Snapshot(a), c)
  {
    line := -1;
    var r := 0;
    while r < Rows
      invariant 0 <= r <= Rows && -1 <= line < r
      invariant line >= 0 ==> a[line, c] == 0
      invariant forall k :: line < k < r ==> a[k, c] != 0
    {
      if a[r, c] == 0 {
        line := r;
      }
      r := r + 1;
    }
  }

  /** The grid after player `p` drops a piece into column `c` (`make_move`). */
  function Drop(g: Grid, c: int, p: int): (h: Grid)
    requires WellFormed(g) && 0 <= c < Cols && HasEmpty(g, c)
    ensures WellFormed(h)
    ensures h[LowestEmpty(g, c)][c] == p
    ensures forall r, k :: 0 <= r < Rows && 0 <= k < Cols && (r != LowestEmpty(g, c) || k != c) ==>
      h[r][k] == g[r][k]
  {
    var row := LowestEmpty(g, c);
    g[row := g[row][c := p]]
  }

  /**
   * `make_move` on the array: write `p` into the empty cell with the largest row
   * index of column `c`, in place.
   */
  method DropPiece(a: array2<int>, c: int, p: int)
    requires a.Length0 == Rows && a.Length1 == Cols && 0 <= c < Cols
    requires HasEmpty(Snapshot(a), c)
    modifies a
    ensures Snapshot(a) == Drop(old(Snapshot(a)), c, p)
  {
    ghost var g := Snapshot(a);
    var line := LowestEmptyRow(a, c);
    a[line, c] := p;
    ghost var h := Drop(g, c, p);
    forall r | 0 <= r < Rows ensures Snapshot(a)[r] == h[r] {
      assert forall k :: 0 <= k < Cols ==> Snapshot(a)[r][k] == h[r][k];
    }
  }

  /** Dropping a piece of player 1 or 2 keeps every cell in 0..2. */
  lemma DropValidCells(g: Grid, c: int, p: int)
    requires WellFormed(g) && ValidCells(g) && 0 <= c < Cols && HasEmpty(g, c)
    requires p == 1 || p == 2
    ensures ValidCells(Drop(g, c, p))
  {
  }

  // ---------------------------------------------------------------------------
  // Counting pieces

  /** The number of non-zero cells of a row. */
  function PiecesInRow(s: seq<int>): (n: nat)
    ensures n <= |s|
  {
    if s == [] then 0 else (if s[0] != 0 then 1 else 0) + PiecesInRow(s[1..])
  }

  /** The number of non-zero cells of a grid: at most 7 per row of 7 cells. */
  function Pieces(g: Grid): (n: nat)
    ensures (forall r :: 0 <= r < |g| ==> |g[r]| == Cols) ==> n <= |g| * Cols
  {
    if g == [] then 0 else PiecesInRow(g[0]) + Pieces(g[1..])
  }

  /** A 6 x 7 grid never holds more than 42 pieces. */
  lemma PiecesBound(g: Grid)
    requires WellFormed(g)
    ensures Pieces(g) <= Rows * Cols
  {
  }

  lemma {:induction false} PiecesInRowUpdate(s: seq<int>, i: int, x: int)
    requires 0 <= i < |s| && s[i] == 0 && x != 0
    ensures PiecesInRow(s[i := x]) == PiecesInRow(s) + 1
  {
    if i > 0 {
      assert s[i := x][1..] == s[1..][i - 1 := x];
      PiecesInRowUpdate(s[1..], i - 1, x);
    }
  }

  lemma {:induction false} PiecesUpdate(g: Grid, i: int, row: seq<int>)
    requires 0 <= i < |g| && PiecesInRow(row) == PiecesInRow(g[i]) + 1
    ensures Pieces(g[i := row]) == Pieces(g) + 1
  {
    if i > 0 {
      assert g[i := row][1..] == g[1..][i - 1 := row];
      PiecesUpdate(g[1..], i - 1, row);
    }
  }

  /** A drop of a non-zero player raises the number of pieces by exactly one. */
  lemma DropAddsOnePiece(g: Grid, c: int, p: int)
    requires WellFormed(g) && 0 <= c < Cols && HasEmpty(g, c) && p != 0
    ensures Pieces(Drop(g, c, p)) == Pieces(g) + 1
  {
    var row := LowestEmpty(g, c);
    PiecesInRowUpdate(g[row], c, p);
    PiecesUpdate(g, row, g[row][c := p]);
  }

  // ---------------------------------------------------------------------------
  // Gravity

  /** In every column the occupied cells are contiguous from the bottom row (5) upward. */
  predicate Settled(g: Grid)
    requires WellFormed(g)
  {
    forall r1, r2, c :: 0 <= r1 < r2 < Rows && 0 <= c < Cols && g[r1][c] != 0 ==> g[r2][c] != 0
  }

  /** A drop of a non-zero player never leaves a floating piece. */
  lemma DropSettled(g: Grid, c: int, p: int)
    requires WellFormed(g) && Settled(g) && 0 <= c < Cols && HasEmpty(g, c) && p != 0
    ensures Settled(Drop(g, c, p))
  {
    var row := LowestEmpty(g, c);
    var h := Drop(g, c, p);
    forall r1, r2, k | 0 <= r1 < r2 < Rows && 0 <= k < Cols && h[r1][k] != 0
      ensures h[r2][k] != 0
    {
      if k == c && r2 == row {
      } else if k == c && r1 == row {
        assert g[r2][k] != 0;
      } else {
        assert g[r1][k] != 0;
      }
    }
  }

  /** Under gravity a column is open exactly when its top cell is empty. */
  lemma SettledOpenIffTopEmpty(g: Grid, c: int)
    requires WellFormed(g) && ValidCells(g) && Settled(g) && 0 <= c < Cols
    ensures ColumnOpen(g, c) <==> g[0][c] == 0
  {
    if g[0][c] != 0 {
      forall r | 0 <= r < Rows ensures g[r][c] != 0 {
        if r > 0 {
          assert g[0][c] != 0;
        }
      }
    }
  }
}
