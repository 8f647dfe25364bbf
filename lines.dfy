/**
 * Four-in-a-row detection. `find_four` walks a fixed table of maximal lines,
 * `POS_DIR`, each traced from a start cell in one direction until it leaves the
 * grid, with a streak counter that resets on a mismatch and succeeds at 4.
 */
module Lines {
  import opened Board

  /** The four direction vectors of `POS_DIR`: [0, 1], [1, 0], [1, 1] and [1, -1]. */
  datatype Direction = Right | Down | DownRight | DownLeft
  {
    function DRow(): int {
      match this
      case Right => 0
      case _ => 1
    }
    function DCol(): int {
      match this
      case Right => 1
      case Down => 0
      case DownRight => 1
      case DownLeft => -1
    }
  }

  /** One `POS_DIR` entry: the cell a line starts from and the direction it is traced in. */
  datatype Entry = Entry(row: int, col: int, dir: Direction)

  /**
   * `POS_DIR`: the 6 rows, the 7 columns, the down-right diagonals starting at
   * (1, 0), (2, 0) and (0, 0) .. (0, 3), and the down-left diagonals starting at
   * (1, 6), (2, 6) and (0, 3) .. (0, 6).
   */
  function PosDir(): (table: seq<Entry>)
    ensures |table| == 25
    ensures forall i :: 0 <= i < |table| ==> InBounds(table[i].row, table[i].col)
  {
    seq(6, i => Entry(i, 0, Right))
    + seq(7, i => Entry(0, i, Down))
    + seq(2, i => Entry(i + 1, 0, DownRight))
    + seq(4, i => Entry(0, i, DownRight))
    + seq(2, i => Entry(i + 1, 6, DownLeft))
    + seq(4, i => Entry(0, i + 3, DownLeft))
  }

  /** The cell values met when tracing from (r, c) in direction `d` until leaving the grid. */
  function Trace(g: Grid, r: int, c: int, d: Direction): (line: seq<int>)
    requires WellFormed(g)
    decreases 2 * (Rows - r) + (Cols - c)
    ensures |line| > 0 <==> InBounds(r, c)
    ensures InBounds(r, c) ==> |line| <= (if d == Right then Cols - c else Rows - r)
    ensures |line| <= Cols
  {
    if InBounds(r, c) then [g[r][c]] + Trace(g, r + d.DRow(), c + d.DCol(), d) else []
  }

  /** The line a `POS_DIR` entry traces. */
  function LineOf(g: Grid, e: Entry): seq<int>
    requires WellFormed(g)
  {
    Trace(g, e.row, e.col, e.dir)
  }

  /** The four elements of `s` from index `k` on all equal `p`. */
  predicate RunAt(s: seq<int>, k: int, p: int) {
    0 <= k && k + 3 < |s| && s[k] == p && s[k + 1] == p && s[k + 2] == p && s[k + 3] == p
  }

  /** Four consecutive elements of `s` equal `p`. */
  predicate HasRun4(s: seq<int>, p: int) {
    exists k | 0 <= k < |s| :: RunAt(s, k, p)
  }

  /** What `find_four` decides: some `POS_DIR` line holds four consecutive `p`s. */
  predicate LinesHaveFour(g: Grid, p: int)
    requires WellFormed(g)
  {
    exists i :: 0 <= i < |PosDir()| && HasRun4(LineOf(g, PosDir()[i]), p)
  }

  /** The four cells from (r, c) on in direction `d` lie on the grid and all hold `p`. */
  predicate Window(g: Grid, r: int, c: int, d: Direction, p: int)
    requires WellFormed(g)
  {
    InBounds(r, c) && InBounds(r + d.DRow(), c + d.DCol()) &&
    InBounds(r + 2 * d.DRow(), c + 2 * d.DCol()) && InBounds(r + 3 * d.DRow(), c + 3 * d.DCol()) &&
    g[r][c] == p && g[r + d.DRow()][c + d.DCol()] == p &&
    g[r + 2 * d.DRow()][c + 2 * d.DCol()] == p && g[r + 3 * d.DRow()][c + 3 * d.DCol()] == p
  }

  /** Player `p` has four in a row: horizontally, vertically or on either diagonal. */
  ghost predicate HasFour(g: Grid, p: int)
    requires WellFormed(g)
  {
    exists r, c, d :: Window(g, r, c, d, p)
  }

  // ---------------------------------------------------------------------------
  // The lines of POS_DIR

  /** The k-th element of a trace is the cell k steps from its start, and that cell is on the grid. */
  lemma {:induction false} TraceAt(g: Grid, r: int, c: int, d: Direction, k: int)
    requires WellFormed(g) && 0 <= k < |Trace(g, r, c, d)|
    ensures InBounds(r + k * d.DRow(), c + k * d.DCol())
    ensures Trace(g, r, c, d)[k] == g[r + k * d.DRow()][c + k * d.DCol()]
    decreases k
  {
    if k > 0 {
      var dr, dc := d.DRow(), d.DCol();
      TraceAt(g, r + dr, c + dc, d, k - 1);
      assert r + dr + (k - 1) * dr == r + k * dr;
      assert c + dc + (k - 1) * dc == c + k * dc;
    }
  }

  /** A trace from a cell on the grid reaches every later cell that is on the grid. */
  lemma {:induction false} TraceReaches(g: Grid, r: int, c: int, d: Direction, m: int)
    requires WellFormed(g) && m >= 0
    requires InBounds(r, c) && InBounds(r + m * d.DRow(), c + m * d.DCol())
    ensures |Trace(g, r, c, d)| > m
    decreases m
  {
    if m > 0 {
      var dr, dc := d.DRow(), d.DCol();
      assert r + dr + (m - 1) * dr == r + m * dr;
      assert c + dc + (m - 1) * dc == c + m * dc;
      assert InBounds(r + dr, c + dc);
      TraceReaches(g, r + dr, c + dc, d, m - 1);
    }
  }

  /**
   * Every `POS_DIR` line starts on the grid at its edge (the cell before the start
   * is off the grid, so the line is maximal) and is at least four cells long.
   */
  lemma PosDirLines(g: Grid, i: int)
    requires WellFormed(g) && 0 <= i < |PosDir()|
    ensures var e := PosDir()[i];
      InBounds(e.row, e.col) && !InBounds(e.row - e.dir.DRow(), e.col - e.dir.DCol()) &&
      |LineOf(g, e)| >= 4
  {
    var e := PosDir()[i];
    TraceReaches(g, e.row, e.col, e.dir, 3);
  }

  /**
   * Every window of four adjacent cells lies on a `POS_DIR` line: it is the k-th
   * to (k + 3)-th cells of line `i`.
   */
  lemma WindowOnLine(r: int, c: int, d: Direction) returns (i: int, k: int)
    requires InBounds(r, c) && InBounds(r + 3 * d.DRow(), c + 3 * d.DCol())
    ensures 0 <= i < |PosDir()| && 0 <= k && PosDir()[i].dir == d
    ensures PosDir()[i].row + k * d.DRow() == r && PosDir()[i].col + k * d.DCol() == c
  {
    match d
    case Right =>
      i, k := r, c;
    case Down =>
      i, k := 6 + c, r;
    case DownRight =>
      if r > c {
        i, k := 12 + (r - c), c;
      } else {
        i, k := 15 + (c - r), r;
      }
    case DownLeft =>
      if r + c <= 6 {
        i, k := 18 + (r + c), r;
      } else {
        i, k := 18 + (r + c - 6), 6 - c;
      }
  }

  /** A run of four on a traced line is a window of four in the line's direction. */
  lemma LineRunIsWindow(g: Grid, e: Entry, p: int, k: int)
    requires WellFormed(g)
    requires RunAt(LineOf(g, e), k, p)
    ensures Window(g, e.row + k * e.dir.DRow(), e.col + k * e.dir.DCol(), e.dir, p)
  {
    var dr, dc := e.dir.DRow(), e.dir.DCol();
    TraceAt(g, e.row, e.col, e.dir, k);
    TraceAt(g, e.row, e.col, e.dir, k + 1);
    TraceAt(g, e.row, e.col, e.dir, k + 2);
    TraceAt(g, e.row, e.col, e.dir, k + 3);
    assert (k + 1) * dr == k * dr + dr && (k + 1) * dc == k * dc + dc;
    assert (k + 2) * dr == k * dr + 2 * dr && (k + 2) * dc == k * dc + 2 * dc;
    assert (k + 3) * dr == k * dr + 3 * dr && (k + 3) * dc == k * dc + 3 * dc;
  }

  /** A window of four is a run of four on the `POS_DIR` line it lies on. */
  lemma WindowIsLineRun(g: Grid, r: int, c: int, d: Direction, p: int)
    requires WellFormed(g) && Window(g, r, c, d, p)
    ensures LinesHaveFour(g, p)
  {
    var i, k := WindowOnLine(r, c, d);
    PosDirLines(g, i);
    WindowIsRunAt(g, PosDir()[i], k, p);
  }

  /** A window of four starting k steps along a line is the run at index k of the traced line. */
  lemma WindowIsRunAt(g: Grid, e: Entry, k: int, p: int)
    requires WellFormed(g) && 0 <= k && InBounds(e.row, e.col)
    requires Window(g, e.row + k * e.dir.DRow(), e.col + k * e.dir.DCol(), e.dir, p)
    ensures RunAt(LineOf(g, e), k, p)
  {
    var d := e.dir;
    var dr, dc := d.DRow(), d.DCol();
    assert (k + 1) * dr == k * dr + dr && (k + 1) * dc == k * dc + dc;
    assert (k + 2) * dr == k * dr + 2 * dr && (k + 2) * dc == k * dc + 2 * dc;
    assert (k + 3) * dr == k * dr + 3 * dr && (k + 3) * dc == k * dc + 3 * dc;
    TraceReaches(g, e.row, e.col, d, k + 3);
    TraceAt(g, e.row, e.col, d, k);
    TraceAt(g, e.row, e.col, d, k + 1);
    TraceAt(g, e.row, e.col, d, k + 2);
    TraceAt(g, e.row, e.col, d, k + 3);
  }

  /** `find_four`'s line scan decides exactly "four in a row in some direction". */
  lemma LinesHaveFourIffHasFour(g: Grid, p: int)
    requires WellFormed(g)
    ensures LinesHaveFour(g, p) <==> HasFour(g, p)
  {
    if LinesHaveFour(g, p) {
      var i :| 0 <= i < |PosDir()| && HasRun4(LineOf(g, PosDir()[i]), p);
      var e := PosDir()[i];
      var s := LineOf(g, e);
      var k :| 0 <= k < |s| && RunAt(s, k, p);
      LineRunIsWindow(g, e, p, k);
    }
    if HasFour(g, p) {
      var r, c, d :| Window(g, r, c, d, p);
      WindowIsLineRun(g, r, c, d, p);
    }
  }

  // ---------------------------------------------------------------------------
  // The streak loop

  /** Appending one element creates a run of four exactly when it extends a streak of three. */
  lemma RunStep(s: seq<int>, x: int, p: int, streak: int)
    requires 0 <= streak <= |s| && !HasRun4(s, p)
    requires forall j :: |s| - streak <= j < |s| ==> s[j] == p
    requires streak < |s| ==> s[|s| - 1 - streak] != p
    ensures HasRun4(s + [x], p) <==> x == p && streak >= 3
  {
    var t := s + [x];
    if HasRun4(t, p) {
      var k :| 0 <= k < |t| && RunAt(t, k, p);
      if k + 3 < |s| {
        assert RunAt(s, k, p);
      } else {
        assert k == |s| - 3;
        assert s[k] == p && s[k + 1] == p && s[k + 2] == p;
      }
    }
    if x == p && streak >= 3 {
      assert RunAt(t, |s| - 3, p);
    }
  }

  lemma RunInPrefix(s: seq<int>, t: seq<int>, p: int)
    requires HasRun4(s, p)
    ensures HasRun4(s + t, p)
  {
    var k :| 0 <= k < |s| && RunAt(s, k, p);
    assert RunAt(s + t, k, p);
  }

  /**
   * `find_four(board, p)`: for each `POS_DIR` entry, trace the line with a streak
   * counter; answer true as soon as the streak reaches 4. There is no `modifies`
   * clause: the board is only read.
   */
  method FindFour(a: array2<int>, p: int) returns (found: bool)
    requires a.Length0 == Rows && a.Length1 == Cols
    ensures found <==> LinesHaveFour(Snapshot(a), p)
  {
    var i := 0;
    while i < |PosDir()|
      invariant 0 <= i <= |PosDir()|
      invariant forall j :: 0 <= j < i ==> !HasRun4(LineOf(Snapshot(a), PosDir()[j]), p)
    {
      var lineHasFour := ScanLine(a, PosDir()[i], p);
      if lineHasFour {
        return true;
      }
      i := i + 1;
    }
    return false;
  }

  /**
   * One pass of the streak loop of `find_four`: trace the line of entry `e`,
   * counting consecutive cells equal to `p`, reset to 0 on any other value.
   */
  method ScanLine(a: array2<int>, e: Entry, p: int) returns (found: bool)
    requires a.Length0 == Rows && a.Length1 == Cols
    ensures found <==> HasRun4(LineOf(Snapshot(a), e), p)
  {
    ghost var g := Snapshot(a);
    var d := e.dir;
    var r, c := e.row, e.col;
    var streak := 0;
    ghost var seen: seq<int> := [];
    while 0 <= r <= 5 && 0 <= c <= 6
      invariant LineOf(g, e) == seen + Trace(g, r, c, d)
      invariant 0 <= streak < 4 && streak <= |seen|
      invariant forall j :: |seen| - streak <= j < |seen| ==> seen[j] == p
      invariant streak < |seen| ==> seen[|seen| - 1 - streak] != p
      invariant !HasRun4(seen, p)
      decreases 2 * (Rows - r) + (Cols - c)
    {
      var x := a[r, c];
      assert x == g[r][c];
      ghost var rest := Trace(g, r + d.DRow(), c + d.DCol(), d);
      assert Trace(g, r, c, d) == [x] + rest;
      assert seen + [x] + rest == LineOf(g, e);
      RunStep(seen, x, p, streak);
      if x == p {
        streak := streak + 1;
        if streak == 4 {
          RunInPrefix(seen + [x], rest, p);
          return true;
        }
      } else {
        streak := 0;
      }
      seen := seen + [x];
      r, c := r + d.DRow(), c + d.DCol();
    }
    assert seen == LineOf(g, e);
    return false;
  }
}
