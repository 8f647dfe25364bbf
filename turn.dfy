/**
 * One click of the web front end: the nested `make_move(column)` of `main`,
 * over the session's board, player to move, game-over flag and status text.
 * The human's column is dropped and judged; if the game goes on, the AI's
 * reply (any legal column, chosen outside this model) is dropped and judged.
 */
module Turn {
  import opened Board
  import opened Lines
  import opened Rules
  import opened Game

  /** The session state: `board`, `current_player`, `is_over` and `status`. */
  datatype State = State(board: Grid, player: int, over: bool, status: string)

  /** The state a session starts from. */
  function Initial(): State {
    State(EmptyGrid(), 1, false, "")
  }

  /** The guard of `make_move`: the column is a possible move and the game is not over. */
  predicate Accepts(s: State, column: int)
    requires WellFormed(s.board)
    ensures Accepts(s, column) ==> !s.over && 0 <= column < Cols && HasEmpty(s.board, column)
  {
    if column in PossibleMoves(s.board) then
      PossibleMoveOpen(s.board, column);
      !s.over
    else
      false
  }

  /** Drop the clicked column for the player to move, then judge the new board. */
  function HumanMove(s: State, column: int): (t: State)
    requires WellFormed(s.board) && 0 <= column < Cols && HasEmpty(s.board, column)
    ensures WellFormed(t.board)
    ensures t.board[LowestEmpty(s.board, column)][column] == s.player
    ensures forall r, k :: 0 <= r < Rows && 0 <= k < Cols && (r != LowestEmpty(s.board, column) || k != column) ==>
      t.board[r][k] == s.board[r][k]
    ensures t.over <==> s.over || IsOver(t.board, s.player)
    ensures !IsOver(t.board, s.player) ==> t.player == Opponent(s.player)
  {
    HumanVerdict(Drop(s.board, column, s.player), s)
  }

  /** After the human's drop onto `g`: "You win!", "Draw!", or the turn passes with `3 - p`. */
  function HumanVerdict(g: Grid, s: State): (t: State)
    requires WellFormed(g)
    ensures t.board == g
    ensures t.over <==> s.over || IsOver(g, s.player)
    ensures HasFour(g, s.player) ==> t.status == "You win!"
    ensures !HasFour(g, s.player) && IsOver(g, s.player) ==> t.status == "Draw!"
    ensures IsOver(g, s.player) ==> t.over && t.player == s.player
    ensures !IsOver(g, s.player) ==> t.player == Opponent(s.player) && t.status == s.status
  {
    if Win(g, s.player) then State(g, s.player, true, "You win!")
    else if IsOver(g, s.player) then State(g, s.player, true, "Draw!")
    else State(g, Opponent(s.player), s.over, s.status)
  }

  /** Drop the AI's column for the player now to move, then judge the new board. */
  function AiMove(s: State, column: int): (t: State)
    requires WellFormed(s.board) && 0 <= column < Cols && HasEmpty(s.board, column)
    ensures WellFormed(t.board)
    ensures t.board[LowestEmpty(s.board, column)][column] == s.player
    ensures forall r, k :: 0 <= r < Rows && 0 <= k < Cols && (r != LowestEmpty(s.board, column) || k != column) ==>
      t.board[r][k] == s.board[r][k]
    ensures t.over <==> s.over || IsOver(t.board, s.player)
    ensures !IsOver(t.board, s.player) ==> t.player == Opponent(s.player)
  {
    AiVerdict(Drop(s.board, column, s.player), s)
  }

  /** After the AI's drop onto `g`: "AI wins!" (on `lose` or on `win`), "Draw!", or the turn passes back. */
  function AiVerdict(g: Grid, s: State): (t: State)
    requires WellFormed(g)
    ensures t.board == g
    ensures t.over <==> s.over || IsOver(g, s.player)
    ensures HasFour(g, s.player) || HasFour(g, Opponent(s.player)) ==> t.status == "AI wins!"
    ensures !HasFour(g, s.player) && !HasFour(g, Opponent(s.player)) && IsOver(g, s.player) ==>
      t.status == "Draw!"
    ensures IsOver(g, s.player) ==> t.over && t.player == s.player
    ensures !IsOver(g, s.player) ==> t.player == Opponent(s.player) && t.status == s.status
  {
    if Lose(g, s.player) then State(g, s.player, true, "AI wins!")
    else if Win(g, s.player) then State(g, s.player, true, "AI wins!")
    else if IsOver(g, s.player) then State(g, s.player, true, "Draw!")
    else State(g, Opponent(s.player), s.over, s.status)
  }

  /** The AI's reply is a possible move whenever the game goes on after the human's move. */
  predicate ReplyLegal(s: State, column: int, aiMove: int)
    requires WellFormed(s.board)
  {
    Accepts(s, column) ==>
      (PossibleMoveOpen(s.board, column);
       !HumanMove(s, column).over ==> aiMove in PossibleMoves(HumanMove(s, column).board))
  }

  /** The whole click: ignored unless accepted; the AI replies only if the game goes on. */
  function Step(s: State, column: int, aiMove: int): (t: State)
    requires WellFormed(s.board) && ReplyLegal(s, column, aiMove)
    ensures WellFormed(t.board)
  {
    if !Accepts(s, column) then s
    else
      PossibleMoveOpen(s.board, column);
      var h := HumanMove(s, column);
      if h.over then h else AiMove(h, aiMove)
  }

  // ---------------------------------------------------------------------------
  // What holds of every session state

  /**
   * Exactly one outcome describes a session: still going (status "", player 1 to
   * move, nobody has four, the board not full), "You win!" (only player 1 has
   * four), "AI wins!" (only player 2 has four) or "Draw!" (full, nobody has four).
   * The board holds 0, 1 and 2 only and obeys gravity.
   */
  ghost predicate Consistent(s: State) {
    WellFormed(s.board) && ValidCells(s.board) && Settled(s.board) &&
    (s.player == 1 || s.player == 2) &&
    (!s.over <==> s.status == "") &&
    (s.status == "" ==>
      s.player == 1 && !HasFour(s.board, 1) && !HasFour(s.board, 2) && !IsFull(s.board)) &&
    (s.over ==> s.status == "You win!" || s.status == "AI wins!" || s.status == "Draw!") &&
    (s.status == "You win!" ==> HasFour(s.board, 1) && !HasFour(s.board, 2)) &&
    (s.status == "AI wins!" ==> HasFour(s.board, 2) && !HasFour(s.board, 1)) &&
    (s.status == "Draw!" ==> IsFull(s.board) && !HasFour(s.board, 1) && !HasFour(s.board, 2))
  }

  lemma InitialConsistent()
    ensures Consistent(Initial())
  {
    var g := EmptyGrid();
    assert forall r, c, d :: !Window(g, r, c, d, 1) && !Window(g, r, c, d, 2);
    assert !IsFull(g) by {
      assert g[0][0] == 0;
    }
  }

  /** The human's move keeps a consistent state consistent, with player 2 to move if it goes on. */
  lemma HumanMoveConsistent(s: State, column: int)
    requires Consistent(s) && Accepts(s, column)
    ensures var h := HumanMove(s, column);
      Pieces(h.board) == Pieces(s.board) + 1 &&
      ValidCells(h.board) && Settled(h.board) &&
      (h.over ==> Consistent(h)) &&
      (!h.over ==> h.player == 2 && h.status == "" && !HasFour(h.board, 1) && !HasFour(h.board, 2) &&
                   !IsFull(h.board))
  {
    assert s.player == 1;
    PossibleMoveOpen(s.board, column);
    var g := Drop(s.board, column, 1);
    DropValidCells(s.board, column, 1);
    DropSettled(s.board, column, 1);
    DropAddsOnePiece(s.board, column, 1);
    DropNoFourForOther(s.board, column, 1, 2);
    assert !HasFour(g, 2);
    var h := HumanMove(s, column);
    if HasFour(g, 1) {
      assert h == State(g, 1, true, "You win!");
    } else if IsFull(g) {
      assert h == State(g, 1, true, "Draw!");
    } else {
      assert h == State(g, 2, false, "");
    }
  }

  /**
   * The AI's move after a continuing human move (player 2 to move, nobody holding
   * four before the drop) adds one piece and leaves a consistent state: "AI wins!"
   * only with a four for player 2, "Draw!" only on a full board, otherwise player 1
   * to move.
   */
  lemma AiMoveConsistent(h: State, aiMove: int)
    requires WellFormed(h.board) && ValidCells(h.board) && Settled(h.board)
    requires h.player == 2 && !h.over && h.status == ""
    requires !HasFour(h.board, 1) && !HasFour(h.board, 2)
    requires 0 <= aiMove < Cols && HasEmpty(h.board, aiMove)
    ensures Pieces(AiMove(h, aiMove).board) == Pieces(h.board) + 1
    ensures Consistent(AiMove(h, aiMove))
  {
    var g := Drop(h.board, aiMove, 2);
    var t := AiMove(h, aiMove);
    DropValidCells(h.board, aiMove, 2);
    DropSettled(h.board, aiMove, 2);
    DropAddsOnePiece(h.board, aiMove, 2);
    DropNoFourForOther(h.board, aiMove, 2, 1);
    assert t.board == g;
    assert !Lose(g, 2);
    if HasFour(g, 2) {
      assert t == State(g, 2, true, "AI wins!");
    } else if IsFull(g) {
      assert t == State(g, 2, true, "Draw!");
    } else {
      assert t == State(g, 1, false, "");
    }
  }

  /**
   * In a consistent session, the `lose` check after the AI's drop is never true:
   * the human cannot have four once the game has gone on past the human's move.
   */
  lemma AiLoseBranchDead(s: State, column: int, aiMove: int)
    requires Consistent(s) && Accepts(s, column) && ReplyLegal(s, column, aiMove)
    requires !HumanMove(s, column).over
    ensures var h := HumanMove(s, column);
      0 <= aiMove < Cols && HasEmpty(h.board, aiMove) && !Lose(Drop(h.board, aiMove, h.player), h.player)
  {
    HumanMoveConsistent(s, column);
    var h := HumanMove(s, column);
    PossibleMoveOpen(h.board, aiMove);
    DropNoFourForOther(h.board, aiMove, 2, 1);
  }

  /** Every click keeps a consistent session consistent. */
  lemma StepConsistent(s: State, column: int, aiMove: int)
    requires Consistent(s) && ReplyLegal(s, column, aiMove)
    ensures Consistent(Step(s, column, aiMove))
  {
    if Accepts(s, column) {
      HumanMoveConsistent(s, column);
      var h := HumanMove(s, column);
      if !h.over {
        PossibleMoveOpen(h.board, aiMove);
        AiMoveConsistent(h, aiMove);
      }
    }
  }

  /** A column that is not a possible move, or a click after the game is over, changes nothing. */
  lemma StepIgnored(s: State, column: int, aiMove: int)
    requires WellFormed(s.board) && ReplyLegal(s, column, aiMove)
    requires column !in PossibleMoves(s.board) || s.over
    ensures Step(s, column, aiMove) == s
  {
  }

  /**
   * A human move that does not end the game hands the turn over with `3 - p`, and
   * an AI reply that does not end it hands the turn back: a continuing click
   * leaves player 1 to move again, with two more pieces on the board.
   */
  lemma StepAlternates(s: State, column: int, aiMove: int)
    requires Consistent(s) && ReplyLegal(s, column, aiMove) && Accepts(s, column)
    ensures !HumanMove(s, column).over ==> HumanMove(s, column).player == 3 - s.player
    ensures var t := Step(s, column, aiMove);
      !t.over ==> t.player == s.player && Pieces(t.board) == Pieces(s.board) + 2
  {
    HumanMoveConsistent(s, column);
    var h := HumanMove(s, column);
    if !h.over {
      PossibleMoveOpen(h.board, aiMove);
      AiMoveConsistent(h, aiMove);
    }
  }

  /** In a consistent session that goes on after the human's move, the AI always has a legal reply. */
  lemma SomeReplyLegal(s: State, column: int) returns (aiMove: int)
    requires Consistent(s)
    ensures ReplyLegal(s, column, aiMove)
  {
    aiMove := 0;
    if Accepts(s, column) {
      HumanMoveConsistent(s, column);
      var h := HumanMove(s, column);
      if !h.over {
        aiMove := SomeMove(h.board);
      }
    }
  }

  /** A board with 0, 1 and 2 only that is not full has a possible move. */
  lemma SomeMove(g: Grid) returns (c: int)
    requires WellFormed(g) && ValidCells(g) && !IsFull(g)
    ensures c in PossibleMoves(g)
  {
    PossibleMovesEmptyIffFull(g);
    c := PossibleMoves(g)[0];
  }

  // ---------------------------------------------------------------------------
  // The session object

  /** `st.session_state`: the live board array, the player to move, `is_over` and `status`. */
  class Session {
    var board: array2<int>
    var currentPlayer: int
    var isOver: bool
    var status: string

    ghost predicate Valid()
      reads this
    {
      board.Length0 == Rows && board.Length1 == Cols
    }

    ghost function Model(): State
      reads this, board
      requires Valid()
    {
      State(Snapshot(board), currentPlayer, isOver, status)
    }

    /** A new session takes the new game's zero board with player 1 to move, not over, empty status. */
    constructor ()
      ensures Valid() && fresh(board) && Model() == Initial()
    {
      var game := new ConnectFour();
      board := game.board;
      currentPlayer := game.currentPlayer;
      isOver := false;
      status := "";
    }

    /** The nested `make_move(column)` of `main`, with the AI's reply given as `aiMove`. */
    method MakeMove(column: int, aiMove: int)
      requires Valid() && ReplyLegal(Model(), column, aiMove)
      modifies this, board
      ensures Valid() && board == old(board)
      ensures Model() == Step(old(Model()), column, aiMove)
    {
      if column in PossibleMoves(Snapshot(board)) && !isOver {
        PossibleMoveOpen(Snapshot(board), column);
        PlayHuman(column);
        if !isOver {
          PossibleMoveOpen(Snapshot(board), aiMove);
          PlayAi(aiMove);
        }
      }
    }

    /** The clicked column's drop, then `win` and `is_over` decide the new player, flag and status. */
    method PlayHuman(column: int)
      requires Valid() && 0 <= column < Cols && HasEmpty(Snapshot(board), column)
      modifies this, board
      ensures Valid() && board == old(board)
      ensures Model() == HumanMove(old(Model()), column)
    {
      var before := State(Snapshot(board), currentPlayer, isOver, status);
      DropPiece(board, column, currentPlayer);
      var t := JudgeHuman(board, before);
      currentPlayer, isOver, status := t.player, t.over, t.status;
    }

    /** The AI's drop, then `lose`, `win` and `is_over` decide the new player, flag and status. */
    method PlayAi(aiMove: int)
      requires Valid() && 0 <= aiMove < Cols && HasEmpty(Snapshot(board), aiMove)
      modifies this, board
      ensures Valid() && board == old(board)
      ensures Model() == AiMove(old(Model()), aiMove)
    {
      var before := State(Snapshot(board), currentPlayer, isOver, status);
      DropPiece(board, aiMove, currentPlayer);
      var t := JudgeAi(board, before);
      currentPlayer, isOver, status := t.player, t.over, t.status;
    }
  }

  /** The checks after the human's drop on the live array: `win`, then `is_over`. */
  method JudgeHuman(a: array2<int>, s: State) returns (t: State)
    requires a.Length0 == Rows && a.Length1 == Cols
    ensures t == HumanVerdict(Snapshot(a), s)
  {
    var g := Snapshot(a);
    var won := FindFour(a, s.player);
    assert won == Win(g, s.player);
    if won {
      return State(g, s.player, true, "You win!");
    }
    var over := IsOverOn(a, s.player);
    if over {
      return State(g, s.player, true, "Draw!");
    }
    return State(g, 3 - s.player, s.over, s.status);
  }

  /** The checks after the AI's drop on the live array: `lose` first, then `win`, then `is_over`. */
  method JudgeAi(a: array2<int>, s: State) returns (t: State)
    requires a.Length0 == Rows && a.Length1 == Cols
    ensures t == AiVerdict(Snapshot(a), s)
  {
    var g := Snapshot(a);
    var lost := FindFour(a, 3 - s.player);
    assert lost == Lose(g, s.player);
    if lost {
      return State(g, s.player, true, "AI wins!");
    }
    var won := FindFour(a, s.player);
    assert won == Win(g, s.player);
    if won {
      return State(g, s.player, true, "AI wins!");
    }
    var over := IsOverOn(a, s.player);
    if over {
      return State(g, s.player, true, "Draw!");
    }
    return State(g, 3 - s.player, s.over, s.status);
  }
}
