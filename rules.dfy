/**
 * The terminal and score predicates of `ConnectFour`: `win`, `lose`, `is_over`
 * and `scoring`, as functions of the board and the player to move.
 */
module Rules {
  import opened Board
  import opened Lines

  /** `opponent_index`: the other player, written `3 - p` where the game flips turns. */
  function Opponent(p: int): (q: int)
    ensures p == 1 ==> q == 2
    ensures p == 2 ==> q == 1
  {
    3 - p
  }

  /** `win`: `find_four(board, current_player)`. */
  function Win(g: Grid, p: int): (won: bool)
    requires WellFormed(g)
    ensures won <==> HasFour(g, p)
  {
    LinesHaveFourIffHasFour(g, p);
    LinesHaveFour(g, p)
  }

  /** `lose`: `find_four(board, opponent_index)`. */
  function Lose(g: Grid, p: int): (lost: bool)
    requires WellFormed(g)
    ensures lost <==> HasFour(g, Opponent(p))
  {
    Win(g, Opponent(p))
  }

  /** `is_over`: the board is full, or either side has four in a row. */
  function IsOver(g: Grid, p: int): (over: bool)
    requires WellFormed(g)
    ensures over <==> IsFull(g) || HasFour(g, p) || HasFour(g, Opponent(p))
    ensures ValidCells(g) ==> (over <==> PossibleMoves(g) == [] || HasFour(g, p) || HasFour(g, Opponent(p)))
  {
    PossibleMovesEmptyIffFull(g);
    IsFull(g) || Win(g, p) || Lose(g, p)
  }

  /** `scoring`: -100 if the opponent has four (checked first), else 100 if the player has four, else 0. */
  function Scoring(g: Grid, p: int): (score: int)
    requires WellFormed(g)
    ensures score == -100 || score == 0 || score == 100
    ensures score == -100 <==> HasFour(g, Opponent(p))
    ensures score == 100 <==> HasFour(g, p) && !HasFour(g, Opponent(p))
    ensures score == 0 <==> !HasFour(g, p) && !HasFour(g, Opponent(p))
  {
    if Lose(g, p) then -100 else if Win(g, p) then 100 else 0
  }

  /** A position that is not over scores 0. */
  lemma ScoringZeroUnlessOver(g: Grid, p: int)
    requires WellFormed(g) && !IsOver(g, p)
    ensures Scoring(g, p) == 0
  {
  }

  /** With at most one side holding four, the two players' scores are opposite (zero sum). */
  lemma ScoringZeroSum(g: Grid, p: int)
    requires WellFormed(g) && (p == 1 || p == 2)
    requires !(HasFour(g, 1) && HasFour(g, 2))
    ensures Scoring(g, p) == -Scoring(g, Opponent(p))
  {
  }

  // ---------------------------------------------------------------------------
  // find_four is symmetric under swapping the players

  /** The board with every 1 replaced by 2 and every 2 by 1. */
  function Swapped(g: Grid): (h: Grid)
    requires WellFormed(g)
    ensures WellFormed(h)
    ensures forall r, c :: 0 <= r < Rows && 0 <= c < Cols ==> h[r][c] == SwapCell(g[r][c])
  {
    seq(Rows, r requires 0 <= r < Rows => seq(Cols, c requires 0 <= c < Cols => SwapCell(g[r][c])))
  }

  function SwapCell(x: int): int {
    if x == 1 then 2 else if x == 2 then 1 else x
  }

  /** Player `p` has four on a board exactly when the opponent has four on the swapped board. */
  lemma HasFourSwapped(g: Grid, p: int)
    requires WellFormed(g) && (p == 1 || p == 2)
    ensures HasFour(g, p) <==> HasFour(Swapped(g), Opponent(p))
  {
    var h := Swapped(g);
    var q := Opponent(p);
    if HasFour(g, p) {
      var r, c, d :| Window(g, r, c, d, p);
      assert Window(h, r, c, d, q);
    }
    if HasFour(h, q) {
      var r, c, d :| Window(h, r, c, d, q);
      assert Window(g, r, c, d, p);
    }
  }

  // ---------------------------------------------------------------------------
  // Example positions

  /** Player 1 holding the bottom row from column 0 to column 3, nothing else on the board. */
  function BottomRowBoard(): (g: Grid)
    ensures WellFormed(g) && ValidCells(g) && Settled(g)
  {
    EmptyGrid()[5 := [1, 1, 1, 1, 0, 0, 0]]
  }

  /** On that board player 1 has four and wins, player 2 has none, and the game is over. */
  lemma BottomRowFour()
    ensures Win(BottomRowBoard(), 1) && !Win(BottomRowBoard(), 2)
    ensures IsOver(BottomRowBoard(), 1) && Scoring(BottomRowBoard(), 1) == 100
    ensures Scoring(BottomRowBoard(), 2) == -100
  {
    var g := BottomRowBoard();
    assert Window(g, 5, 0, Right, 1);
    forall r, c, d ensures !Window(g, r, c, d, 2) {
      if InBounds(r, c) {
        assert g[r][c] != 2;
      }
    }
  }

  /** A full board on which neither side has four is over and scores 0 for both players (a draw). */
  lemma FullBoardDraw(g: Grid)
    requires WellFormed(g) && IsFull(g) && !HasFour(g, 1) && !HasFour(g, 2)
    ensures IsOver(g, 1) && IsOver(g, 2)
    ensures Scoring(g, 1) == 0 && Scoring(g, 2) == 0
  {
  }

  // ---------------------------------------------------------------------------
  // Drops and fours

  /** Dropping a piece of player `q` never gives a different player `p` a new four. */
  lemma DropNoFourForOther(g: Grid, c: int, q: int, p: int)
    requires WellFormed(g) && 0 <= c < Cols && HasEmpty(g, c)
    requires p != q && p != 0
    ensures HasFour(Drop(g, c, q), p) ==> HasFour(g, p)
  {
    var h := Drop(g, c, q);
    if HasFour(h, p) {
      var r, k, d :| Window(h, r, k, d, p);
      assert Window(g, r, k, d, p);
    }
  }
}
