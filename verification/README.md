# Ultimate Tic-Tac-Toe: a Dafny model of the board and the turn loop

The system is a console game of Ultimate Tic-Tac-Toe. The big board
(`UltimateTicTacToeBoard`) is a 3×3 grid of small games (`TicTacToeBoard`), and each small
game is a 3×3 grid of squares. A move is given as global coordinates 0..8 × 0..8. `coord`
splits them into the small game (quotient by 3) and the square inside it (remainder by 3).
`is_valid_move` enforces the rule that the square must be BLANK and must lie in the small
game indicated by the cell of the previous move, unless that game is full.
`play_move` writes the player's mark. It then runs `check_win` on the small game and then on
the big board. Both `check_win` methods use the same neighbour-probing search for a full
row, column or diagonal through the changed square, and then recompute `board_full`.
`GameMaster.start_game` creates and sets up the board, then plays the moves one turn at a
time while the game is still running.

The model has five modules:

- `States`: the enumerations `ShownEnum` and `GameResultEnum`, and an `Option` type.
- `Geometry`: `coord`, `_is_valid_new_tup`, and the edge lists that both `set_up` methods build.
- `WinCheck`: the two loops of `check_win`, written once over a 3×3 grid of shown states.
  They are proved against a reference definition: the eight lines of the grid, and fullness.
- `Board`: the two board classes, as Dafny classes whose methods update their fields.
  A small game's state is summarised by the value `GameState`. The pure function `AfterMove`
  states what a move does to it, and the lemmas about a move are stated over that function.
- `Game`: the turn bookkeeping of `start_game`, and `GameMaster` itself.

### Where the code departs from the usual rules of Ultimate Tic-Tac-Toe

The model follows the code in each of these points:

- The comment at game.py:27 says O starts, but `player` starts at 1 and `play_move` gets
  `player % 2`, so X moves first and the marks then alternate (`Game.MarksAlternate` states
  the parity of `player` after k accepted moves; `Game.TakeTurn` passes `player % 2` on).
- The big board's `check_win` never sets `game_result` to O_WIN or X_WIN. A line of won small
  games only changes its `square_shown_state`. The game ends only with TIE, when no small
  game still shows BLANK (`Game.PlayWhileRunning`).
- A small game's shown state is not write-once. A later line of the other mark through the
  played square takes it over (`Board.MoveWinsByLine`).
- A won small game is not closed for play. `is_valid_move` looks only at `board_full` of the
  indicated game, not at its shown state.
- Nothing assigns the T state to a square or a small game (`Board.MoveNeverWritesT`).
  A full small game with no line therefore keeps showing BLANK, and the big board cannot
  become full through drawn small games. So once any small game is drawn, `game_result`
  stays STILL_RUNNING for good, and the `while` loop of `start_game` (game.py:28) never ends:
  every later move is either refused or played elsewhere.

## Model

| member | source | states |
|---|---|---|
| Geometry.Coord | board.py:181-187 | the small game is the truncated quotient by 3 and the square the remainder; for on-board input both are on the 3×3 grid and recombine to the input |
| Geometry.CoordThenGlobal | board.py:181-187 | recombining the parts that coord returns gives back the global coordinates |
| Geometry.GlobalThenCoord | board.py:181-187 | every square of every small game has global coordinates that coord maps back to it |
| Geometry.CoordInjective | board.py:181-187 | two different on-board coordinates never address the same square of the same small game |
| Geometry.KeepValidMembers | board.py:22-29 | filtering candidates with _is_valid_new_tup keeps exactly the candidates that differ from the square and lie on the grid |
| Geometry.NeighboursMembers | board.py:56-66 | the edge list set_up builds for a square holds exactly the on-grid squares adjacent to it (itself excluded) |
| Geometry.NeighbourCount | board.py:56-66 | a corner has 3 edges, the centre 8, the other border squares 5 |
| Geometry.NeighboursList | board.py:56-66 | each built edge list has the membership property check_win relies on |
| Geometry.EdgeListAt | board.py:95-96 | an edge table of set_up's shape has an entry for every grid square, and that entry is such an edge list |
| Geometry.EdgeTableLists | board.py:162-172 | the table both set_up methods build has set_up's shape |
| Geometry.EdgeTable | board.py:162-172 | the edge table has exactly the nine grid squares as keys |
| Geometry.CollectEdges | board.py:59-66 | the two inner loops over x_change and y_change append, in loop order, exactly the candidates that pass _is_valid_new_tup |
| Geometry.BuildEdgeTable | board.py:56-66 | the outer two loops give every grid square, and no other key, its edge list |
| WinCheck.ProbeOnlyOnLines | board.py:104-116 | a successful probe from a neighbour always lies on a full row, column or diagonal through the changed square |
| WinCheck.LinesFoundByProbe | board.py:104-116 | every full line through the changed square is found by probing from one of its neighbours |
| WinCheck.ProbeFindsExactlyLines | board.py:104-116 | the probing succeeds exactly when a full line of the changed square's state passes through it |
| WinCheck.ScanForLine | board.py:93-116 | the worklist loop over the edge list finds a match exactly when a full row, column or diagonal of the changed square's state passes through it |
| WinCheck.ScanFull | board.py:117-122 | the double loop yields true exactly when no square is BLANK |
| Board.BlankGrid | board.py:50-53 | a freshly set up small game is a 3×3 grid of BLANK squares |
| Board.MoveWritesOneSquare | board.py:356-366 | a move writes the player's mark into the addressed square and changes no other square |
| Board.OtherPlayerWritesNothing | board.py:362-366 | a player value other than 0 and 1 writes nothing, so the move only re-runs check_win |
| Board.MoveShowsOnlyTheNewMark | board.py:106-116 | after a move a small game shows what it showed before or the mark just written |
| Board.MoveWinsByLine | board.py:106-116 | after a move by player 0 or 1 the game shows that mark exactly when it already did or a line of it now runs through the played square |
| Board.FullStaysFull | board.py:117-122 | a full small game stays full after any move |
| Board.MoveNeverWritesT | board.py:356-366 | if no square and no game state is T, none is after a move |
| Board.TicTacToeBoard.constructor | board.py:37-45 | a new small game records its position and is BLANK and not full |
| Board.TicTacToeBoard.SetUp | board.py:48-66 | set_up leaves nine BLANK squares and the 8-neighbourhood edge list of each square |
| Board.TicTacToeBoard.CheckWin | board.py:90-122 | the game takes the changed square's state exactly when a full line of it runs through that square, otherwise keeps its state; board_full holds exactly when no square is BLANK |
| Board.UltimateBoard.constructor | board.py:142-148 | a new big board is STILL_RUNNING, not full, and has no small games yet |
| Board.UltimateBoard.SetUp | board.py:152-172 | set_up creates nine fresh small games, each at its own position, BLANK, not full and set up, plus the big board's edge lists |
| Board.UltimateBoard.IsValidMove | board.py:283-316 | a marked square is refused whatever the other arguments; a BLANK square is accepted on the first move; later it is accepted exactly when it lies in the game indicated by the previous move's cell or that game is full, and is otherwise a wrong board |
| Board.UltimateBoard.CheckWin | board.py:319-353 | the big board takes the changed small game's shown state exactly when a full line of it runs through that game; board_full holds, and game_result becomes TIE, exactly when no small game shows BLANK; game_result is never set to a win |
| Board.UltimateBoard.MarkAndCheckGame | board.py:356-366 | the addressed small game changes as AfterMove says, and every other small game is unchanged |
| Board.UltimateBoard.PlayMove | board.py:356-367 | the addressed small game changes as AfterMove says and no other one changes; then the big board's state follows the line and fullness tests over the new shown states |
| Game.AfterAcceptedDescribes | game.py:20-23 | after any sequence of accepted moves, first_move is false exactly when one was accepted, the previous coordinates are those of the last one, and player is one more than their number |
| Game.MarksAlternate | game.py:23-51 | after k accepted moves the bookkeeping's player % 2, the value play_move receives next, is 1 (X) when k is even and 0 (O) when k is odd; TakeTurn hands this value to play_move for the turn it takes, but the loop's contract does not export it per move (see Left out) |
| Game.TakeTurn | game.py:38-51 | the verdict is is_valid_move's; a refused move changes neither the board nor the bookkeeping; an accepted move changes the addressed small game as AfterMove says for player % 2 and no other one, sets the big board's square_shown_state, board_full and game_result by the line and fullness tests over the new shown states, and is recorded in the bookkeeping |
| Game.PlayWhileRunning | game.py:28-51 | the loop stops early only on TIE with every small game non-BLANK, and game_result is never O_WIN or X_WIN; it returns one flag per consumed input (flags not tied to is_valid_move, see Left out), the accepted moves are exactly the inputs whose flag is true, in order, and the final bookkeeping is AfterAccepted of them |
| Game.GameMaster.constructor | game.py:13-14 | __init__ leaves no board |
| Game.GameMaster.StartGame | game.py:16-51 | ms_board becomes a fresh, set-up board; it ends STILL_RUNNING, or TIE with every small game non-BLANK, and inputs are left over only after TIE; the flags, the accepted moves and the final bookkeeping are as for PlayWhileRunning |

## Left out

- Printing and rendering: `print_board`, `print_line_break`, `get_print_str`, and the prints
  inside `set_up`, `is_valid_move` and `start_game`. They have no effect on the state.
- Input: `get_next_move` and the debug branch's `random.randint` become the sequence of
  moves given to `StartGame`. Its elements are on-board coordinates, because both input
  routes produce only 0..8.
- The Python game loop runs until the game ends. The model's loop also stops when the given
  moves run out.
- Square objects: each is represented by its `square_shown_state`, the only field the core
  reads or writes. Their `x_cord` and `y_cord` never change.
- Error messages: `is_valid_move`'s `(bool, message)` pair becomes the `Verdict` datatype,
  which carries the coordinates the message prints.
- WinCheck.ScanForLine: the source writes `square_shown_state` inside the worklist loop, always
  with the same value. The model records a hit flag and writes once after the loop. The
  order in which neighbours are probed does not affect the result, and the model does not
  state it.
- Board.UltimateBoard.PlayMove: the write and the small game's `check_win` are in a
  separate method, MarkAndCheckGame, which PlayMove calls before the big board's `check_win`.
- Game.PlayWhileRunning: the `while` loop of `start_game` is in a separate method, with the
  four loop-carried locals as a `Bookkeeping` value.
- Game.PlayWhileRunning: the `ok` flags it returns are not tied to `is_valid_move` on the
  board as it was at each turn, the board after each accepted move is not stated, and
  neither is the player each accepted move was played for. So the contract does not say that
  any input was played. `TakeTurn` states all three for a single turn. Carrying the history of board states through
  the loop, or even the fact that every accepted square is marked, made the loop's proof
  too expensive for the verifier.
- Game.GameMaster.StartGame: the same gap as PlayWhileRunning, whose results it passes on.
- `ms_board` is an attribute that `start_game` creates. Before that it is modelled as
  `null`.
- Integer width: Python integers are unbounded, as are Dafny's, so there is nothing to wrap.
