/**
 * The two board classes of board.py: TicTacToeBoard, a 3×3 small game of squares, and
 * UltimateTicTacToeBoard, the 3×3 grid of small games that the players see as a 9×9 board.
 */
module Board {
  import opened States
  import opened Geometry
  import opened WinCheck

  /** The (bool, message) pair returned by is_valid_move, keeping the data of each message. */
  datatype Verdict =
    | Success
    | WrongBoard(gameXCord: int, gameYCord: int)         // "Board[gx][gy] is wrong"
    | AlreadyMarked(squareXCord: int, squareYCord: int)  // "Square[sx][sy] is already marked"

  /** play_move's write: O for player 0, X for player 1, and no write for any other value. */
  function Written(player: int, current: Shown): Shown {
    if player == 0 then O else if player == 1 then X else current
  }

  /** is_valid_square: a square may be played when it is BLANK. */
  function IsValidSquare(square: Shown): bool {
    square == Blank
  }

  /** The squares of a small game right after set_up: nine BLANK squares. */
  function BlankGrid(): (g: seq<seq<Shown>>)
    ensures IsGrid(g) && forall p :: InGrid(p) ==> At(g, p) == Blank
  {
    [[Blank, Blank, Blank], [Blank, Blank, Blank], [Blank, Blank, Blank]]
  }

  // ---------------------------------------------------------------------------
  // The state of one small game, and what check_win and play_move do to it
  // ---------------------------------------------------------------------------

  /** What a TicTacToeBoard holds besides its fixed position and edge lists. */
  datatype GameState = GameState(squares: seq<seq<Shown>>, shown: Shown, full: bool)

  /**
   * check_win at square p of a small game: the game takes that square's state when a full
   * row, column or diagonal of it passes through p, and otherwise keeps the state it had;
   * board_full is recomputed.
   */
  ghost function AfterCheckWin(g: GameState, p: Pos): GameState
    requires IsGrid(g.squares) && InGrid(p)
  {
    var m := At(g.squares, p);
    GameState(g.squares, if LineThrough(g.squares, p, m) then m else g.shown, Full(g.squares))
  }

  /** The write of play_move into square p of a small game. */
  function AfterMark(g: GameState, p: Pos, player: int): GameState
    requires IsGrid(g.squares) && InGrid(p)
  {
    g.(squares := SetAt(g.squares, p, Written(player, At(g.squares, p))))
  }

  /** What play_move does to the small game it addresses: the write, then that game's check_win. */
  ghost function AfterMove(g: GameState, p: Pos, player: int): GameState
    requires IsGrid(g.squares) && InGrid(p)
  {
    AfterCheckWin(AfterMark(g, p, player), p)
  }

  /** A move writes the player's mark into the addressed square and changes no other square. */
  lemma MoveWritesOneSquare(g: GameState, p: Pos, player: int, q: Pos)
    requires IsGrid(g.squares) && InGrid(p) && InGrid(q)
    ensures IsGrid(AfterMove(g, p, player).squares)
    ensures At(AfterMove(g, p, player).squares, q) ==
      if q == p then Written(player, At(g.squares, p)) else At(g.squares, q)
  {
  }

  /** A player value other than 0 and 1 writes nothing, and the move is a bare check_win. */
  lemma OtherPlayerWritesNothing(g: GameState, p: Pos, player: int)
    requires IsGrid(g.squares) && InGrid(p)
    requires player != 0 && player != 1
    ensures AfterMark(g, p, player) == g
    ensures AfterMove(g, p, player) == AfterCheckWin(g, p)
  {
    SetAtSame(g.squares, p);
  }

  /**
   * After a move the small game shows either what it showed before or the mark just written:
   * a game is never given the state of any other square, and never T.
   */
  lemma MoveShowsOnlyTheNewMark(g: GameState, p: Pos, player: int)
    requires IsGrid(g.squares) && InGrid(p)
    ensures var r := AfterMove(g, p, player);
      r.shown == g.shown || r.shown == Written(player, At(g.squares, p))
  {
  }

  /**
   * When player 0 or 1 plays a BLANK square, the game shows that player's mark afterwards
   * exactly when it did already or when the move completed a line of the mark through the
   * square; a won game is therefore taken over by the other player's line.
   */
  lemma MoveWinsByLine(g: GameState, p: Pos, player: int)
    requires IsGrid(g.squares) && InGrid(p) && (player == 0 || player == 1)
    ensures var r := AfterMove(g, p, player);
      var mark := if player == 0 then O else X;
      && (r.shown == mark <==> g.shown == mark || LineThrough(r.squares, p, mark))
      && (LineThrough(r.squares, p, mark) ==> r.shown == mark)
  {
  }

  /** A full small game stays full: marks are never erased. */
  lemma FullStaysFull(g: GameState, p: Pos, player: int)
    requires IsGrid(g.squares) && InGrid(p) && Full(g.squares)
    ensures AfterMove(g, p, player).full
  {
    var r := AfterMark(g, p, player);
    forall q | InGrid(q)
      ensures At(r.squares, q) != Blank
    {
      MoveWritesOneSquare(g, p, player, q);
    }
  }

  /** No square and no game state is T: nothing in board.py ever assigns it. */
  ghost predicate NoT(g: GameState)
    requires IsGrid(g.squares)
  {
    g.shown != T && forall q :: InGrid(q) ==> At(g.squares, q) != T
  }

  lemma MoveNeverWritesT(g: GameState, p: Pos, player: int)
    requires IsGrid(g.squares) && InGrid(p) && NoT(g)
    ensures NoT(AfterMove(g, p, player))
  {
    forall q | InGrid(q)
      ensures At(AfterMove(g, p, player).squares, q) != T
    {
      MoveWritesOneSquare(g, p, player, q);
    }
  }

  // ---------------------------------------------------------------------------
  // UltimateTicTacToeBoard.TicTacToeBoard
  // ---------------------------------------------------------------------------

  /** One of the nine small games. */
  class TicTacToeBoard {
    /** x_cord and y_cord: the position of this game on the big board, never reassigned. */
    const xCord: int
    const yCord: int
    /** squares[x][y]: each Square object is represented by its square_shown_state. */
    var squares: seq<seq<Shown>>
    var squareEdges: map<Pos, seq<Pos>>
    var squareShownState: Shown
    var boardFull: bool

    /** The shape set_up establishes: a 3×3 grid of squares and an edge list for each. */
    ghost predicate Valid()
      reads this`squares, this`squareEdges
    {
      IsGrid(squares) && EdgeLists(squareEdges)
    }

    ghost function State(): GameState
      reads this`squares, this`squareShownState, this`boardFull
    {
      GameState(squares, squareShownState, boardFull)
    }

    /** __init__: an empty game at (x, y), BLANK and not full. */
    constructor (x: int, y: int)
      ensures xCord == x && yCord == y
      ensures squares == [] && squareEdges == map[]
      ensures squareShownState == Blank && !boardFull
    {
      xCord, yCord := x, y;
      squares, squareEdges := [], map[];
      squareShownState := Blank;
      boardFull := false;
    }

    /** set_up: nine BLANK squares, and the in-grid 8-neighbourhood of each as its edge list. */
    method SetUp()
      modifies this`squares, this`squareEdges
      ensures Valid()
      ensures squares == BlankGrid() && squareEdges == EdgeTable()
    {
      squares := [];
      for x := 0 to Size
        invariant squares == BlankGrid()[..x]
      {
        squares := squares + [[]];
        for y := 0 to Size
          invariant squares == BlankGrid()[..x] + [BlankGrid()[x][..y]]
        {
          assert BlankGrid()[x][..y + 1] == BlankGrid()[x][..y] + [Blank];
          squares := squares[x := squares[x] + [Blank]];
        }
        assert BlankGrid()[x][..Size] == BlankGrid()[x];
        assert BlankGrid()[..x + 1] == BlankGrid()[..x] + [BlankGrid()[x]];
      }
      squareEdges := BuildEdgeTable();
      EdgeTableLists();
    }

    /**
     * check_win after square (x, y) changed, with the worklist loop and the fullness loop as
     * ScanForLine and ScanFull.
     */
    method CheckWin(x: int, y: int)
      requires Valid() && InGrid((x, y))
      modifies this`squareShownState, this`boardFull
      ensures State() == AfterCheckWin(old(State()), (x, y))
    {
      EdgeListAt(squareEdges, (x, y));
      var hit := ScanForLine(squares, (x, y), squareEdges[(x, y)]);
      if hit {
        squareShownState := squares[x][y];
      }
      var full := ScanFull(squares);
      boardFull := full;
    }
  }

  // ---------------------------------------------------------------------------
  // UltimateTicTacToeBoard
  // ---------------------------------------------------------------------------

  /** The big board: a 3×3 grid of small games. */
  class UltimateBoard {
    var gameResult: GameResult
    var squares: seq<seq<TicTacToeBoard>>
    var squareEdges: map<Pos, seq<Pos>>
    var boardFull: bool
    /** square_shown_state, an attribute that only check_win creates (None until then). */
    var squareShownState: Option<Shown>
    /** The small game objects. */
    ghost var Repr: set<TicTacToeBoard>

    /** Nine small games, each at the position it records. */
    ghost predicate Shape()
      reads this`squares, this`Repr
    {
      && IsGrid(squares)
      && forall x, y :: 0 <= x < Size && 0 <= y < Size ==>
           squares[x][y] in Repr && squares[x][y].xCord == x && squares[x][y].yCord == y
    }

    /** The shape set_up establishes, for the big board and each small game. */
    ghost predicate Valid()
      reads this`squares, this`squareEdges, this`Repr, Repr`squares, Repr`squareEdges
    {
      && Shape()
      && EdgeLists(squareEdges)
      && forall x, y :: 0 <= x < Size && 0 <= y < Size ==>
           IsGrid(squares[x][y].squares) && squares[x][y].squareEdges == squareEdges
    }

    /** The shown states of the nine small games: the grid the big board's check_win works on. */
    function Grid(): (g: seq<seq<Shown>>)
      reads this`squares, this`Repr, Repr`squareShownState
      requires Shape()
      ensures IsGrid(g)
    {
      [ [squares[0][0].squareShownState, squares[0][1].squareShownState, squares[0][2].squareShownState],
        [squares[1][0].squareShownState, squares[1][1].squareShownState, squares[1][2].squareShownState],
        [squares[2][0].squareShownState, squares[2][1].squareShownState, squares[2][2].squareShownState] ]
    }

    /** The square at global coordinates (x, y). */
    function CellAt(x: int, y: int): Shown
      reads this`squares, this`squareEdges, this`Repr, Repr`squares, Repr`squareEdges
      requires Valid() && InBoard(x, y)
    {
      var (gameXCord, gameYCord, squareXCord, squareYCord) := Coord(x, y);
      At(squares[gameXCord][gameYCord].squares, (squareXCord, squareYCord))
    }

    /** __init__: still running, no small games yet, not full. */
    constructor ()
      ensures gameResult == StillRunning && !boardFull && squareShownState == None
      ensures squares == [] && squareEdges == map[] && Repr == {}
    {
      gameResult := StillRunning;
      squares, squareEdges := [], map[];
      boardFull := false;
      squareShownState := None;
      Repr := {};
    }

    /** set_up: nine fresh small games, each set up, and the edge lists of the big grid. */
    method SetUp()
      modifies this`squares, this`squareEdges, this`Repr
      ensures Valid() && fresh(Repr) && squareEdges == EdgeTable()
      ensures forall game :: game in Repr ==> game.State() == GameState(BlankGrid(), Blank, false)
    {
      squares := [];
      Repr := {};
      for x := 0 to Size
        invariant |squares| == x && fresh(Repr)
        invariant forall i :: 0 <= i < x ==> |squares[i]| == Size
        invariant forall i, j :: 0 <= i < x && 0 <= j < Size ==>
          && squares[i][j] in Repr && squares[i][j].xCord == i && squares[i][j].yCord == j
          && squares[i][j].squares == BlankGrid() && squares[i][j].squareEdges == EdgeTable()
        invariant forall game :: game in Repr ==> game.State() == GameState(BlankGrid(), Blank, false)
      {
        squares := squares + [[]];
        for y := 0 to Size
          invariant |squares| == x + 1 && fresh(Repr)
          invariant forall i :: 0 <= i < x ==> |squares[i]| == Size
          invariant |squares[x]| == y
          invariant forall i, j :: (0 <= i < x && 0 <= j < Size) || (i == x && 0 <= j < y) ==>
            && squares[i][j] in Repr && squares[i][j].xCord == i && squares[i][j].yCord == j
            && squares[i][j].squares == BlankGrid() && squares[i][j].squareEdges == EdgeTable()
          invariant forall game :: game in Repr ==> game.State() == GameState(BlankGrid(), Blank, false)
        {
          var game := new TicTacToeBoard(x, y);
          game.SetUp();
          squares := squares[x := squares[x] + [game]];
          Repr := Repr + {game};
        }
      }
      squareEdges := BuildEdgeTable();
      EdgeTableLists();
    }

    /**
     * is_valid_move: a marked target square is refused whatever the other arguments; on the
     * first move any BLANK square is accepted; later, a BLANK square is accepted exactly when
     * it lies in the small game indicated by the previous move's cell (prev % 3), or when that
     * indicated game's board_full is set; otherwise the board is wrong.
     */
    function IsValidMove(x: int, y: int, firstMove: bool, prevXCord: int, prevYCord: int): (r: Verdict)
      reads this`squares, this`squareEdges, this`Repr, Repr`squares, Repr`squareEdges, Repr`boardFull
      requires Valid() && InBoard(x, y)
      ensures r.AlreadyMarked? <==> CellAt(x, y) != Blank
      ensures r.AlreadyMarked? ==> r == AlreadyMarked(x % 3, y % 3)
      ensures CellAt(x, y) == Blank && firstMove ==> r == Success
      ensures CellAt(x, y) == Blank && !firstMove ==>
        (r == Success <==>
           (x / 3, y / 3) == (prevXCord % 3, prevYCord % 3)
           || squares[prevXCord % 3][prevYCord % 3].boardFull)
      ensures r.WrongBoard? ==> r == WrongBoard(x / 3, y / 3)
    {
      var (gameXCord, gameYCord, squareXCord, squareYCord) := Coord(x, y);
      var game := squares[gameXCord][gameYCord];
      var square := At(game.squares, (squareXCord, squareYCord));
      var prevSquareXCord := prevXCord % 3;
      var prevSquareYCord := prevYCord % 3;
      var prevGame := squares[prevSquareXCord][prevSquareYCord];
      if IsValidSquare(square) then
        if !firstMove then
          if prevSquareXCord != gameXCord || prevSquareYCord != gameYCord then
            if prevGame.boardFull then Success else WrongBoard(gameXCord, gameYCord)
          else
            Success
        else
          Success
      else
        AlreadyMarked(squareXCord, squareYCord)
    }

    /**
     * check_win on the big board after small game (x, y) changed: the same line test over the
     * small games' shown states, writing only square_shown_state (never O_WIN or X_WIN);
     * board_full is recomputed and game_result becomes TIE exactly when no small game is BLANK.
     */
    method CheckWin(x: int, y: int)
      requires Shape() && EdgeLists(squareEdges) && InGrid((x, y))
      modifies this`squareShownState, this`boardFull, this`gameResult
      ensures var g := old(Grid());
        squareShownState == if LineThrough(g, (x, y), At(g, (x, y))) then Some(At(g, (x, y))) else old(squareShownState)
      ensures boardFull <==> Full(old(Grid()))
      ensures gameResult == if Full(old(Grid())) then Tie else old(gameResult)
      ensures unchanged(this`squares, this`squareEdges, this`Repr, Repr)
    {
      var g := Grid();
      EdgeListAt(squareEdges, (x, y));
      var hit := ScanForLine(g, (x, y), squareEdges[(x, y)]);
      if hit {
        squareShownState := Some(g[x][y]);
      }
      var full := ScanFull(g);
      boardFull := full;
      if full {
        gameResult := Tie;
      }
    }

    /** The first half of play_move: the write into the addressed square, then its game's check_win. */
    method MarkAndCheckGame(x: int, y: int, player: int)
      requires Valid() && InBoard(x, y)
      modifies Repr`squares, Repr`squareShownState, Repr`boardFull
      ensures Valid()
      ensures var (gameXCord, gameYCord, squareXCord, squareYCord) := Coord(x, y);
        squares[gameXCord][gameYCord].State() ==
          AfterMove(old(squares[gameXCord][gameYCord].State()), (squareXCord, squareYCord), player)
      ensures forall game :: game in Repr && (game.xCord, game.yCord) != (Coord(x, y).0, Coord(x, y).1) ==>
        game.State() == old(game.State())
    {
      var (gameXCord, gameYCord, squareXCord, squareYCord) := Coord(x, y);
      var game := squares[gameXCord][gameYCord];
      if player == 0 {
        game.squares := SetAt(game.squares, (squareXCord, squareYCord), O);
      } else if player == 1 {
        game.squares := SetAt(game.squares, (squareXCord, squareYCord), X);
      } else {
        SetAtSame(game.squares, (squareXCord, squareYCord));
      }
      game.CheckWin(squareXCord, squareYCord);
    }

    /**
     * play_move: the addressed small game changes as AfterMove says and no other small game
     * changes; then the big board's check_win runs at that game.
     */
    method PlayMove(x: int, y: int, player: int)
      requires Valid() && InBoard(x, y)
      modifies this`squareShownState, this`boardFull, this`gameResult
      modifies Repr`squares, Repr`squareShownState, Repr`boardFull
      ensures Valid()
      ensures var (gameXCord, gameYCord, squareXCord, squareYCord) := Coord(x, y);
        squares[gameXCord][gameYCord].State() ==
          AfterMove(old(squares[gameXCord][gameYCord].State()), (squareXCord, squareYCord), player)
      ensures forall game :: game in Repr && (game.xCord, game.yCord) != (Coord(x, y).0, Coord(x, y).1) ==>
        game.State() == old(game.State())
      ensures var (gameXCord, gameYCord) := (Coord(x, y).0, Coord(x, y).1);
        squareShownState ==
          if LineThrough(Grid(), (gameXCord, gameYCord), At(Grid(), (gameXCord, gameYCord)))
          then Some(At(Grid(), (gameXCord, gameYCord))) else old(squareShownState)
      ensures boardFull <==> Full(Grid())
      ensures gameResult == if Full(Grid()) then Tie else old(gameResult)
    {
      MarkAndCheckGame(x, y, player);
      var (gameXCord, gameYCord, _, _) := Coord(x, y);
      ghost var g := Grid();
      CheckWin(gameXCord, gameYCord);
      assert Grid() == g;
    }
  }
}
