# Connect Four rules engine — a Dafny model

This project models the rules engine of the Connect Four web app
`ConnectFour_web.py`. The board is a fixed 6 × 7 grid of integers: 0 is an empty
cell, 1 and 2 are the two players' pieces, and row 5 is the bottom row, because
pieces fall towards the largest empty row index. The model covers these parts:

- **`board.dfy`, module `Board`.** The grid as a value (`Grid = seq<seq<int>>`).
  It holds the legal-move generator `possible_moves`, as a function of the grid
  value. It also holds the gravity drop of `make_move`, in two forms: a function
  on the value (`Drop`) and a method on the `array2<int>` the game mutates
  (`DropPiece`).
  It also holds piece counting and the gravity invariant `Settled`.
- **`lines.dfy`, module `Lines`.** The `POS_DIR` table of maximal lines and the
  four-in-a-row detector `find_four`. The detector is an imperative streak loop
  over the array (`FindFour`, `ScanLine`), proved equal to a declarative meaning
  (`LinesHaveFour`: some traced line holds four consecutive `p`). That meaning is
  proved equal to "four in a row in some direction" (`HasFour`).
- **`rules.dfy`, module `Rules`.** `win`, `lose`, `is_over` and `scoring` as
  functions of the grid and the player to move. `opponent_index` is `3 - p`.
- **`game.dfy`, module `Game`.** The `ConnectFour` object: a board array changed
  in place by `make_move`, and the player to move.
- **`turn.dfy`, module `Turn`.** The nested `make_move(column)` of `main`, which
  is one click of the web front end. The session state (`board`,
  `current_player`, `is_over`, `status`) becomes the class `Session`, specified
  by the pure state machine `Step` over the datatype `State`. The AI's reply is
  a parameter `aiMove`. It must be a possible move whenever the game goes on
  after the human's move (`ReplyLegal`).

A few behaviours of the source are worth stating outright:

- `possible_moves` tests `board[:, c].min() == 0`. The model keeps that test as
  written (`ColumnOpen`: some 0 and no negative cell). On boards of 0, 1 and 2
  only, it is the same as "the column holds a 0" (`PossibleMovesHoldEmpty`).
- `find_four` never writes the board: `FindFour` and `ScanLine` have no
  `modifies` clause.
- After the AI's drop, `main` first checks `lose()`, i.e. whether the human has
  four. `AiLoseBranchDead` shows that this check is never true in a consistent
  session. The game has gone on past the human's move, so the human had no four
  before the AI's drop. A drop by one player never gives the other a new four
  (`DropNoFourForOther`). So "AI wins!" always comes from the `win()` branch.
- In the running app, `game` is rebuilt with an all-zero board on every
  Streamlit rerun (line 84). The guard at line 100 therefore reads a board that
  can differ from the session board. The model takes the guard over the session
  board, which lines 101, 106 and 116 assign to `game.board`.

## Model

| member | source | states |
|---|---|---|
| `Board.ColumnOpen` | ConnectFour_web.py:23 | on a board of 0, 1 and 2, `board[:, c].min() == 0` holds iff the column contains a 0 |
| `Board.IsFull` | ConnectFour_web.py:48 | when `board.min() > 0`, no column is open |
| `Board.PossibleMoves` | ConnectFour_web.py:22-23 | the result is strictly ascending, lies in [0, 7), and holds exactly the columns whose minimum is 0 |
| `Board.PossibleMovesEmptyIffFull` | ConnectFour_web.py:22-23 | on a board of 0, 1 and 2, there is no possible move exactly when every cell is non-zero (`board.min() > 0`) |
| `Board.PossibleMovesHoldEmpty` | ConnectFour_web.py:22-23 | on a board of 0, 1 and 2, a column is a possible move iff it contains a 0 |
| `Board.PossibleMoveOpen` | ConnectFour_web.py:22-23 | every possible move is a column on the board that holds an empty cell |
| `Board.LowestEmpty` | ConnectFour_web.py:26 | the row is empty in that column, and every row below it (larger index) is occupied |
| `Board.LowestEmptyRow` | ConnectFour_web.py:26 | the scan over the array finds the largest row index holding 0 in the column |
| `Board.Drop` | ConnectFour_web.py:25-27 | the player's piece is in the lowest empty cell of the column, and every other cell is unchanged |
| `Board.DropPiece` | ConnectFour_web.py:25-27 | the array afterwards equals the drop of the player into the column of the array before |
| `Board.DropAddsOnePiece` | ConnectFour_web.py:25-27 | a drop by a non-zero player raises the number of non-zero cells by exactly one |
| `Board.DropSettled` | ConnectFour_web.py:25-27 | if every column's pieces are contiguous from row 5 upward before a drop, they still are after it |
| `Board.DropValidCells` | ConnectFour_web.py:25-27 | dropping a piece of player 1 or 2 keeps every cell in 0..2 |
| `Board.SettledOpenIffTopEmpty` | ConnectFour_web.py:22-23 | under gravity, a column is a possible move exactly when its top cell (row 0) is empty |
| `Board.Pieces` | ConnectFour_web.py:18 | the number of non-zero cells is at most 7 per row of 7 cells |
| `Board.PiecesBound` | ConnectFour_web.py:18 | a 6 × 7 grid never holds more than 42 pieces |
| `Lines.PosDir` | ConnectFour_web.py:72-79 | the table has 25 entries (6 rows, 7 columns, 6 down-right and 6 down-left diagonals), each starting on the grid |
| `Lines.Trace` | ConnectFour_web.py:61-68 | the walk from a cell yields a value iff the cell is inside the grid; a line runs at most to the grid's edge in its direction, so never more than 7 cells |
| `Lines.TraceAt` | ConnectFour_web.py:61-68 | the k-th value of a traced line is the cell k steps from its start, and that cell is inside 0 <= r <= 5, 0 <= c <= 6 |
| `Lines.PosDirLines` | ConnectFour_web.py:72-79 | every `POS_DIR` line starts on the grid at its edge (so it is maximal) and is at least four cells long |
| `Lines.WindowOnLine` | ConnectFour_web.py:72-79 | every window of four adjacent cells (horizontal, vertical, down-right or down-left) lies on some `POS_DIR` line |
| `Lines.LinesHaveFourIffHasFour` | ConnectFour_web.py:54-79 | some `POS_DIR` line holds four consecutive `p` iff the board has four `p` in a row in some direction |
| `Lines.ScanLine` | ConnectFour_web.py:60-68 | the streak loop over one line returns true iff the traced line holds four consecutive `p` |
| `Lines.FindFour` | ConnectFour_web.py:54-69 | returns true iff some `POS_DIR` line holds four consecutive `p`; it reads the board and writes nothing |
| `Rules.Opponent` | ConnectFour_web.py:114 | the other player: 1 maps to 2 and 2 maps to 1 |
| `Rules.Win` | ConnectFour_web.py:44-45 | true iff the player to move has four in a row |
| `Rules.Lose` | ConnectFour_web.py:41-42 | true iff the opponent has four in a row |
| `Rules.IsOver` | ConnectFour_web.py:47-48 | true iff the board is full or either player has four; on boards of 0, 1 and 2, "full" is "no possible move" |
| `Rules.Scoring` | ConnectFour_web.py:50-51 | the score is -100, 0 or 100: -100 iff the opponent has four (this wins ties), 100 iff only the player to move has four, 0 iff neither has |
| `Rules.ScoringZeroUnlessOver` | ConnectFour_web.py:47-51 | a position that is not over scores 0 |
| `Rules.ScoringZeroSum` | ConnectFour_web.py:41-51 | when at most one side has four, the two players' scores are opposite |
| `Rules.HasFourSwapped` | ConnectFour_web.py:54-69 | four-in-a-row is symmetric under swapping the players' pieces |
| `Rules.BottomRowFour` | ConnectFour_web.py:41-69 | with player 1 on the bottom row, columns 0 to 3: player 1 wins and scores 100, player 2 has no four and scores -100, and the game is over |
| `Rules.FullBoardDraw` | ConnectFour_web.py:47-51 | a full board with no four for either side is over and scores 0 for both players |
| `Rules.DropNoFourForOther` | ConnectFour_web.py:25-27 | a drop by one player never creates a four for another player |
| `Game.ConnectFour.constructor` | ConnectFour_web.py:13-20 | a new game has a fresh all-zero 6 × 7 board and player 1 to move |
| `Game.ConnectFour.WithBoard` | ConnectFour_web.py:13-20 | a game built on a given board uses that very array, with player 1 to move |
| `Game.ConnectFour.MakeMove` | ConnectFour_web.py:25-27 | the board array becomes the drop of the current player into the column |
| `Game.IsOverOn` | ConnectFour_web.py:47-48 | evaluated on the array, the result equals `is_over` of its contents |
| `Turn.Accepts` | ConnectFour_web.py:100 | an accepted click comes while the game is not over, on a column in 0..6 that holds an empty cell |
| `Turn.HumanMove` | ConnectFour_web.py:104-114 | the human's piece lands in the lowest empty cell of the column and nothing else changes; the game is over afterwards iff it was or the new board is over, and the player flips to 3 - p when the board is not over |
| `Turn.HumanVerdict` | ConnectFour_web.py:107-114 | the board is kept; "You win!" when the mover has four; otherwise "Draw!" when the board is over; the game is over afterwards iff it was or the board is over; the player is kept on an over board and flipped, with the status unchanged, otherwise |
| `Turn.AiMove` | ConnectFour_web.py:121-134 | the AI's piece lands in the lowest empty cell of the column and nothing else changes; the game is over afterwards iff it was or the new board is over, and the player flips back when the board is not over |
| `Turn.AiVerdict` | ConnectFour_web.py:124-134 | the board is kept; "AI wins!" when either side has four (the `lose` and `win` branches); otherwise "Draw!" when the board is over; the game is over afterwards iff it was or the board is over; the player is kept on an over board and flipped, with the status unchanged, otherwise |
| `Turn.Step` | ConnectFour_web.py:99-134 | a click yields a well-formed 6 × 7 board |
| `Turn.InitialConsistent` | ConnectFour_web.py:86-90 | the starting session (empty board, player 1, not over, empty status) is consistent |
| `Turn.HumanMoveConsistent` | ConnectFour_web.py:99-114 | the human's accepted move adds one piece and keeps cells valid and settled; it ends the game with the right status, or passes the turn to player 2 with nobody holding four |
| `Turn.AiMoveConsistent` | ConnectFour_web.py:119-134 | when nobody has four before the AI's drop, its legal reply adds one piece and leaves a consistent session: "AI wins!" only with a four for player 2, "Draw!" only on a full board, otherwise player 1 to move |
| `Turn.AiLoseBranchDead` | ConnectFour_web.py:119-126 | in a consistent session whose game goes on after the human's move, the AI's reply is a droppable column and the `lose()` check after its drop is false |
| `Turn.StepConsistent` | ConnectFour_web.py:99-134 | every click keeps a consistent session consistent: exactly one of going on, "You win!", "AI wins!" or "Draw!", with gravity and valid cells |
| `Turn.StepIgnored` | ConnectFour_web.py:99-100 | a column that is not a possible move, or a click after the game is over, leaves the session unchanged |
| `Turn.StepAlternates` | ConnectFour_web.py:113-134 | a human move that does not end the game maps the player p to 3 - p; a click that does not end the game leaves player 1 to move with two more pieces |
| `Turn.SomeReplyLegal` | ConnectFour_web.py:119-122 | in a consistent session there is always a legal AI reply for the click |
| `Turn.SomeMove` | ConnectFour_web.py:22-23 | a board of 0, 1 and 2 that is not full has a possible move |
| `Turn.Session.constructor` | ConnectFour_web.py:84-90 | a new session holds the new game's all-zero board, player 1, not over and an empty status |
| `Turn.Session.MakeMove` | ConnectFour_web.py:99-134 | the session afterwards is `Step` of the session before, for the clicked column and the AI's reply |
| `Turn.Session.PlayHuman` | ConnectFour_web.py:101-114 | the session afterwards is the human's drop followed by the `win` / `is_over` verdict |
| `Turn.Session.PlayAi` | ConnectFour_web.py:116-134 | the session afterwards is the AI's drop followed by the `lose` / `win` / `is_over` verdict |
| `Turn.JudgeHuman` | ConnectFour_web.py:107-114 | the checks on the live array give the same verdict as `HumanVerdict` on its contents |
| `Turn.JudgeAi` | ConnectFour_web.py:124-134 | the checks on the live array give the same verdict as `AiVerdict` on its contents |

## Left out

- The SSS* search, `AI_Player` and `Human_Player` come from the easyAI library, which is not part of this model. The AI's reply is a parameter, `aiMove`, required to be a possible move whenever the game goes on after the human's move.
- `opponent_index` is defined in easyAI's `TwoPlayerGame`, which is not part of this model. It is modelled as `3 - p`, the flip the file itself uses.
- `show` and the whole Streamlit user interface are presentation only: the title, the restart button, the cell buttons, the colours and the CSS. `reset_board` belongs to the restart button's wiring and is left out with it.
- `st.session_state` becomes the explicit fields of `Turn.Session`. Streamlit's reruns of `main` are not modelled. The model does not capture that `game` is rebuilt every run.
- The NumPy import guard and its error message are left out. NumPy slicing becomes loops over a 6 × 7 `array2<int>` or predicates over the grid value.
- `make_move` with a column from -7 to -1 wraps to column 7 + c under NumPy's negative indexing. A full column, or a column >= 7 or <= -8, raises inside NumPy. The model covers neither case: `Board.DropPiece`, `Game.ConnectFour.MakeMove` and `Board.Drop` require 0 <= column < 7 and an empty cell. Every caller passes a column taken from `possible_moves` or guarded by it, so only 0..6 occur.
- `Turn.Step`: its own contract only says the board stays well formed. Its behaviour is stated by `StepIgnored`, `StepAlternates` and `StepConsistent`.
- The `players` field of `ConnectFour` holds easyAI player objects and is not modelled.
