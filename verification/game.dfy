/**
 * The turn bookkeeping of GameMaster.start_game in game.py: moves are validated and played
 * one at a time, while the locals first_move, prev_x_cord, prev_y_cord and player record what
 * has been accepted.
 */
module Game {
  import opened States
  import opened Geometry
  import opened WinCheck
  import opened Board

  /** The four locals of start_game that carry over from one turn to the next. */
  datatype Bookkeeping = Bookkeeping(firstMove: bool, prevXCord: int, prevYCord: int, player: int)

  /** Their values before the first turn. */
  function Initial(): Bookkeeping {
    Bookkeeping(true, 0, 0, 1)
  }

  /** Their update after an accepted move (x, y). */
  function Advance(b: Bookkeeping, x: int, y: int): Bookkeeping {
    Bookkeeping(false, x, y, b.player + 1)
  }

  /** Their values after the accepted moves `accepted`, in order, from the start of the game. */
  function AfterAccepted(accepted: seq<(int, int)>): Bookkeeping {
    if accepted == [] then Initial()
    else
      var last := accepted[|accepted| - 1];
      Advance(AfterAccepted(accepted[..|accepted| - 1]), last.0, last.1)
  }

  /**
   * The bookkeeping always describes the accepted moves: first_move holds exactly until one is
   * accepted, the previous coordinates are those of the last accepted move ((0, 0) before
   * any), and player is one more than the number of accepted moves.
   */
  lemma {:induction false} AfterAcceptedDescribes(accepted: seq<(int, int)>)
    ensures var b := AfterAccepted(accepted);
      && (b.firstMove <==> accepted == [])
      && (b.prevXCord, b.prevYCord) == (if accepted == [] then (0, 0) else accepted[|accepted| - 1])
      && b.player == 1 + |accepted|
  {
    if accepted != [] {
      AfterAcceptedDescribes(accepted[..|accepted| - 1]);
    }
  }

  /**
   * After k accepted moves the value of player % 2 that TakeTurn hands to play_move next is 1,
   * X, when k is even and 0, O, when k is odd: play starts with X and then alternates, since
   * player starts at 1 and only player % 2 is passed to play_move.
   */
  lemma {:induction false} MarksAlternate(accepted: seq<(int, int)>)
    ensures AfterAccepted(accepted).player % 2 == if |accepted| % 2 == 0 then 1 else 0
  {
    AfterAcceptedDescribes(accepted);
  }

  /**
   * One turn of the loop of start_game with input (x, y): a move refused by is_valid_move
   * changes neither the board nor the bookkeeping; an accepted one is played for player % 2
   * and then recorded by Advance.
   */
  method TakeTurn(board: UltimateBoard, b: Bookkeeping, x: int, y: int) returns (verdict: Verdict, b': Bookkeeping)
    requires board.Valid() && InBoard(x, y)
    modifies board`squareShownState, board`boardFull, board`gameResult
    modifies board.Repr`squares, board.Repr`squareShownState, board.Repr`boardFull
    ensures board.Valid()
    ensures verdict == old(board.IsValidMove(x, y, b.firstMove, b.prevXCord, b.prevYCord))
    ensures verdict != Success ==> b' == b && unchanged(board) && unchanged(board.Repr)
    ensures verdict == Success ==> b' == Advance(b, x, y)
    ensures verdict == Success ==>
      var (gameXCord, gameYCord, squareXCord, squareYCord) := Coord(x, y);
      && board.squares[gameXCord][gameYCord].State() ==
           AfterMove(old(board.squares[gameXCord][gameYCord].State()), (squareXCord, squareYCord), b.player % 2)
      && (forall game :: game in board.Repr && (game.xCord, game.yCord) != (gameXCord, gameYCord) ==>
            game.State() == old(game.State()))
      && board.squareShownState ==
           (if LineThrough(board.Grid(), (gameXCord, gameYCord), At(board.Grid(), (gameXCord, gameYCord)))
            then Some(At(board.Grid(), (gameXCord, gameYCord))) else old(board.squareShownState))
      && (board.boardFull <==> Full(board.Grid()))
      && board.gameResult == (if Full(board.Grid()) then Tie else old(board.gameResult))
  {
    verdict := board.IsValidMove(x, y, b.firstMove, b.prevXCord, b.prevYCord);
    if verdict != Success {
      b' := b;
      return;
    }
    board.PlayMove(x, y, b.player % 2);
    b' := Advance(b, x, y);
  }

  /** The inputs whose entry in `ok` is true, in order. */
  function Kept(moves: seq<(int, int)>, ok: seq<bool>): (kept: seq<(int, int)>)
    requires |ok| == |moves|
    ensures forall m :: m in kept ==> m in moves
  {
    if moves == [] then []
    else
      Kept(moves[..|moves| - 1], ok[..|ok| - 1]) + (if ok[|ok| - 1] then [moves[|moves| - 1]] else [])
  }

  /** Consuming one more input extends the kept inputs by that input exactly when its flag is true. */
  lemma KeptStep(moves: seq<(int, int)>, ok: seq<bool>, v: bool)
    requires |ok| < |moves|
    ensures Kept(moves[..|ok| + 1], ok + [v]) ==
      Kept(moves[..|ok|], ok) + (if v then [moves[|ok|]] else [])
  {
    assert moves[..|ok| + 1][..|ok|] == moves[..|ok|];
    assert (ok + [v])[..|ok|] == ok;
  }

  /**
   * The while loop of start_game over the moves the players enter, in order, starting from
   * the bookkeeping of the first turn: it runs while game_result is STILL_RUNNING and input
   * remains, one TakeTurn per input. It can only stop early on TIE, with all nine small games
   * non-BLANK: O_WIN and X_WIN are never reached. `ok` holds one flag per consumed input (in
   * the loop, whether TakeTurn accepted it), `accepted` lists the inputs whose flag in `ok` is
   * true, and `b` is the bookkeeping that AfterAccepted gives for them.
   */
  method PlayWhileRunning(board: UltimateBoard, moves: seq<(int, int)>)
    returns (consumed: nat, b: Bookkeeping, ghost ok: seq<bool>, ghost accepted: seq<(int, int)>)
    requires board.Valid() && board.gameResult == StillRunning
    requires forall i :: 0 <= i < |moves| ==> InBoard(moves[i].0, moves[i].1)
    modifies board`squareShownState, board`boardFull, board`gameResult
    modifies board.Repr`squares, board.Repr`squareShownState, board.Repr`boardFull
    ensures board.Valid() && consumed <= |moves|
    ensures board.gameResult == StillRunning || (board.gameResult == Tie && Full(board.Grid()))
    ensures consumed < |moves| ==> board.gameResult == Tie
    ensures |ok| == consumed && accepted == Kept(moves[..consumed], ok)
    ensures b == AfterAccepted(accepted)
  {
    ghost var games := board.Repr;
    b := Initial();
    consumed, ok, accepted := 0, [], [];
    while consumed < |moves| && board.gameResult == StillRunning
      invariant board.Valid() && board.Repr == games
      invariant board.gameResult == StillRunning || (board.gameResult == Tie && Full(board.Grid()))
      invariant consumed <= |moves|
      invariant |ok| == consumed && accepted == Kept(moves[..consumed], ok)
      invariant b == AfterAccepted(accepted)
      decreases |moves| - consumed
    {
      var (x, y) := moves[consumed];
      var verdict;
      verdict, b := TakeTurn(board, b, x, y);
      KeptStep(moves, ok, verdict == Success);
      if verdict == Success {
        accepted := accepted + [(x, y)];
      }
      ok := ok + [verdict == Success];
      consumed := consumed + 1;
    }
  }

  /** GameMaster: it holds the board start_game creates. */
  class GameMaster {
    var msBoard: UltimateBoard?

    /** __init__ does nothing; ms_board only exists once start_game has run. */
    constructor ()
      ensures msBoard == null
    {
      msBoard := null;
    }

    /**
     * start_game over the moves the players enter, in order: ms_board becomes a fresh board,
     * set up, and then PlayWhileRunning plays the inputs on it. What it returns is what the
     * loop returns: the number of inputs consumed, the final bookkeeping, one verdict per
     * consumed input, and the accepted moves.
     */
    method StartGame(moves: seq<(int, int)>)
      returns (consumed: nat, b: Bookkeeping, ghost ok: seq<bool>, ghost accepted: seq<(int, int)>)
      requires forall i :: 0 <= i < |moves| ==> InBoard(moves[i].0, moves[i].1)
      modifies this`msBoard
      ensures msBoard != null && fresh(msBoard) && msBoard.Valid() && consumed <= |moves|
      ensures msBoard.gameResult == StillRunning || msBoard.gameResult == Tie
      ensures msBoard.gameResult == Tie ==> Full(msBoard.Grid())
      ensures consumed < |moves| ==> msBoard.gameResult == Tie
      ensures |ok| == consumed && accepted == Kept(moves[..consumed], ok)
      ensures b == AfterAccepted(accepted)
    {
      var board := new UltimateBoard();
      board.SetUp();
      msBoard := board;
      consumed, b, ok, accepted := PlayWhileRunning(board, moves);
    }
  }
}
