/** The `ConnectFour` game object: a 6 x 7 board array changed in place, and the player to move. */
module Game {
  import opened Board
  import opened Lines
  import opened Rules

  class ConnectFour {
    var board: array2<int>
    var currentPlayer: int

    ghost predicate Valid()
      reads this
    {
      board.Length0 == Rows && board.Length1 == Cols
    }

    /** `ConnectFour(players)`: a fresh all-zero board, player 1 to move. */
    constructor ()
      ensures Valid() && fresh(board)
      ensures Snapshot(board) == EmptyGrid() && currentPlayer == 1
    {
      var b := new int[Rows, Cols]((_, _) => 0);
      assert forall r :: 0 <= r < Rows ==> Snapshot(b)[r] == EmptyGrid()[r];
      board := b;
      currentPlayer := 1;
    }

    /** `ConnectFour(players, board)`: the game uses the given array itself, not a copy. */
    constructor WithBoard(b: array2<int>)
      requires b.Length0 == Rows && b.Length1 == Cols
      ensures Valid() && board == b && currentPlayer == 1
    {
      board := b;
      currentPlayer := 1;
    }

    /** `make_move(column)`: drop the current player's piece into the column. */
    method MakeMove(column: int)
      requires Valid() && 0 <= column < Cols && HasEmpty(Snapshot(board), column)
      modifies board
      ensures Snapshot(board) == Drop(old(Snapshot(board)), column, currentPlayer)
    {
      DropPiece(board, column, currentPlayer);
    }
  }

  /**
   * `is_over` evaluated on a board array for player `p` to move:
   * `board.min() > 0 or find_four(board, p) or find_four(board, 3 - p)`.
   */
  method IsOverOn(a: array2<int>, p: int) returns (over: bool)
    requires a.Length0 == Rows && a.Length1 == Cols
    ensures over == IsOver(Snapshot(a), p)
  {
    over := IsFull(Snapshot(a));
    if !over {
      over := FindFour(a, p);
      if !over {
        over := FindFour(a, 3 - p);
      }
    }
  }
}
