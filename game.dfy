/**
 * The whole game as a value: the nine squares, the claim board and the game status of a
 * UTTTBoard, and make_move as a function on them. The class in uttt_board.dfy is proved to
 * follow Move; the rules of the game are proved here, about Move.
 */
module Game {
  import opened Enums
  import opened Lines

  /** The fields of a UTTTBoard as a value: its nine squares, its claim board and the game status. */
  datatype UTTTState = UTTTState(boards: seq<TTTState>, statusBoard: TTTState, gameStatus: GameStatus)

  predicate WellFormedGame(g: UTTTState)
  {
    |g.boards| == 9
  }

  /**
   * The game invariant: every square and the claim board keep the board invariant, cell s of
   * the claim board holds the claimant of square s (and nothing while s is open), and the game
   * status is the claim board's claim.
   */
  predicate GameValid(g: UTTTState)
  {
    WellFormedGame(g) &&
    (forall s :: 0 <= s < 9 ==> Good(g.boards[s])) && Good(g.statusBoard) &&
    (forall s :: 0 <= s < 9 ==> g.statusBoard.board[s] == Owner(g.boards[s].status)) &&
    g.gameStatus == GameFor(g.statusBoard.status)
  }

  /** is_valid_move: square and cell are indices 0..8 and that square accepts the cell. */
  predicate ValidMove(g: UTTTState, square: int, cell: int)
    requires WellFormedGame(g)
  {
    IsCell(square) && IsCell(cell) && CanPlay(g.boards[square], cell)
  }

  /** What a new UTTTBoard holds: nine fresh squares, a fresh claim board, the game not over. */
  const Initial: UTTTState := UTTTState(seq(9, _ => Fresh), Fresh, NotOver)

  /** The new game keeps the invariant, and every move in it is valid. */
  lemma InitialIsValid()
    ensures GameValid(Initial)
    ensures forall s, c :: IsCell(s) && IsCell(c) ==> ValidMove(Initial, s, c)
  {
    FreshIsGood();
  }

  /**
   * make_move on the values: an invalid move changes nothing; a valid one places the marker in
   * its square, plays a newly claimed square on the claim board for the mover, and ends the game
   * for the mover when that claims the claim board. The flag is make_move's game_win.
   */
  function Move(g: UTTTState, square: int, cell: int, player: Player): (r: (UTTTState, bool))
    requires WellFormedGame(g)
    ensures WellFormedGame(r.0)
  {
    if !ValidMove(g, square, cell) then (g, false)
    else
      var (sq, claimed) := Place(g.boards[square], cell, player);
      var boards := g.boards[square := sq];
      if !claimed then (g.(boards := boards), false)
      else
        var (sb, won) := Place(g.statusBoard, square, player);
        (UTTTState(boards, sb, if won then (if player == X then XWin else OWin) else g.gameStatus), won)
  }

  /**
   * What a move does: an invalid move changes nothing; a valid one writes its cell and touches
   * no other square; the claim board is played, in the move's square and for the mover, only
   * when the move newly claims its square; the game is won exactly when the claim board leaves
   * Unclaimed, and then by the mover.
   */
  lemma MoveEffects(g: UTTTState, square: int, cell: int, player: Player)
    requires WellFormedGame(g)
    ensures var (g', won) := Move(g, square, cell, player);
            (!ValidMove(g, square, cell) ==> g' == g && !won) &&
            (ValidMove(g, square, cell) ==>
               g'.boards[square].board == g.boards[square].board[cell := player] &&
               forall s :: 0 <= s < 9 && s != square ==> g'.boards[s] == g.boards[s]) &&
            (g'.statusBoard == g.statusBoard ||
             (ValidMove(g, square, cell) && g.boards[square].status == Unclaimed && g'.boards[square].status != Unclaimed &&
              g'.statusBoard.board == g.statusBoard.board[square := player])) &&
            (won <==> g.statusBoard.status == Unclaimed && g'.statusBoard.status != Unclaimed) &&
            g'.gameStatus == if won then (if player == X then XWin else OWin) else g.gameStatus
  {
    if ValidMove(g, square, cell) {
      PlaceEffects(g.boards[square], cell, player);
      var (sq, claimed) := Place(g.boards[square], cell, player);
      if claimed {
        PlaceEffects(g.statusBoard, square, player);
      }
    }
  }

  /** A claimed square, a claimed claim board and a marked cell stay as they are, whatever move is made. */
  lemma MoveKeepsClaims(g: UTTTState, square: int, cell: int, player: Player)
    requires WellFormedGame(g)
    ensures var g' := Move(g, square, cell, player).0;
            (forall s :: 0 <= s < 9 && g.boards[s].status != Unclaimed ==> g'.boards[s].status == g.boards[s].status) &&
            (forall s, c :: 0 <= s < 9 && IsCell(c) && g.boards[s].board[c] != Empty ==> g'.boards[s].board[c] == g.boards[s].board[c]) &&
            (g.statusBoard.status != Unclaimed ==> g'.statusBoard.status == g.statusBoard.status)
  {
    if ValidMove(g, square, cell) {
      PlaceEffects(g.boards[square], cell, player);
      if Place(g.boards[square], cell, player).1 {
        PlaceEffects(g.statusBoard, square, player);
      }
    }
  }

  /** On a valid game, a newly claimed square is always written to an empty cell of the claim board. */
  lemma ClaimTargetsEmptyCell(g: UTTTState, square: int, cell: int, player: Player)
    requires GameValid(g) && ValidMove(g, square, cell)
    ensures g.statusBoard.board[square] == Empty
  {
  }

  /** A real player's move keeps every square's board invariant, and claims a square exactly when it completes the mover's line there. */
  lemma MoveKeepsSquaresGood(g: UTTTState, square: int, cell: int, player: Player)
    requires GameValid(g) && player != Empty
    ensures var g' := Move(g, square, cell, player).0;
            (forall s :: 0 <= s < 9 ==> Good(g'.boards[s])) &&
            (ValidMove(g, square, cell) ==>
               (g'.boards[square].status != Unclaimed <==> HasLine(g'.boards[square].board, player)) &&
               (g'.boards[square].status != Unclaimed ==> g'.boards[square].status == ClaimFor(player)))
  {
    var g' := Move(g, square, cell, player).0;
    if ValidMove(g, square, cell) {
      PlaceKeepsGood(g.boards[square], cell, player);
      assert g'.boards[square] == Place(g.boards[square], cell, player).0;
    }
    forall s | 0 <= s < 9 && (s != square || !ValidMove(g, square, cell))
      ensures Good(g'.boards[s])
    {
      assert g'.boards[s] == g.boards[s];
    }
  }

  /**
   * A real player's move keeps the claim board's invariant; the game is won exactly when it was
   * not over and the claim board now holds the mover's line.
   */
  lemma MoveKeepsClaimBoardGood(g: UTTTState, square: int, cell: int, player: Player)
    requires GameValid(g) && player != Empty
    ensures var (g', won) := Move(g, square, cell, player);
            Good(g'.statusBoard) &&
            (won <==> g.gameStatus == NotOver && HasLine(g'.statusBoard.board, player)) &&
            g'.gameStatus == GameFor(g'.statusBoard.status)
  {
    var (g', won) := Move(g, square, cell, player);
    if ValidMove(g, square, cell) && Place(g.boards[square], cell, player).1 {
      ClaimTargetsEmptyCell(g, square, cell, player);
      var (sb, w) := Place(g.statusBoard, square, player);
      PlaceKeepsGood(g.statusBoard, square, player);
      PlaceEffects(g.statusBoard, square, player);
      assert g'.statusBoard == sb && won == w;
      assert g'.gameStatus == if w then (if player == X then XWin else OWin) else g.gameStatus;
    } else {
      assert g'.statusBoard == g.statusBoard && !won && g'.gameStatus == g.gameStatus;
    }
  }

  /** A real player's move keeps every cell of the claim board equal to the owner of its square. */
  lemma MoveKeepsClaimsMirrored(g: UTTTState, square: int, cell: int, player: Player)
    requires GameValid(g) && player != Empty
    ensures var g' := Move(g, square, cell, player).0;
            forall s :: 0 <= s < 9 ==> g'.statusBoard.board[s] == Owner(g'.boards[s].status)
  {
    var g' := Move(g, square, cell, player).0;
    if ValidMove(g, square, cell) {
      var (sq', claimed) := Place(g.boards[square], cell, player);
      assert g'.boards[square] == sq';
      if claimed {
        PlaceKeepsGood(g.boards[square], cell, player);
        assert g'.statusBoard.board[square] == player && sq'.status == ClaimFor(player);
      } else {
        assert g'.statusBoard == g.statusBoard && sq'.status == Unclaimed;
      }
    }
    forall s | 0 <= s < 9 && (s != square || !ValidMove(g, square, cell))
      ensures g'.statusBoard.board[s] == Owner(g'.boards[s].status)
    {
      assert g'.boards[s] == g.boards[s];
    }
  }

  /**
   * A move by a real player keeps the game invariant. A valid move claims its square exactly
   * when it completes the mover's line there; the game is won exactly when it was not over and
   * the claim board now holds the mover's line, and then it is won by the mover.
   */
  lemma MoveKeepsValid(g: UTTTState, square: int, cell: int, player: Player)
    requires GameValid(g) && player != Empty
    ensures var (g', won) := Move(g, square, cell, player);
            GameValid(g') &&
            (ValidMove(g, square, cell) ==> (g'.boards[square].status != Unclaimed <==> HasLine(g'.boards[square].board, player))) &&
            (won <==> g.gameStatus == NotOver && HasLine(g'.statusBoard.board, player)) &&
            (won ==> g'.gameStatus == GameFor(ClaimFor(player)))
  {
    MoveKeepsSquaresGood(g, square, cell, player);
    MoveKeepsClaimBoardGood(g, square, cell, player);
    MoveKeepsClaimsMirrored(g, square, cell, player);
    MoveEffects(g, square, cell, player);
  }

  /** Once the claim board is claimed, no move of any player changes the game status or reports a win again. */
  lemma GameOverIsFinal(g: UTTTState, square: int, cell: int, player: Player)
    requires WellFormedGame(g) && g.statusBoard.status != Unclaimed
    ensures Move(g, square, cell, player).0.gameStatus == g.gameStatus
    ensures !Move(g, square, cell, player).1
  {
    MoveEffects(g, square, cell, player);
  }

  /** The game is NOT_OVER exactly while the claim board is unclaimed. */
  predicate OverWhenClaimed(g: UTTTState)
  {
    g.gameStatus == NotOver <==> g.statusBoard.status == Unclaimed
  }

  /** Every move, by any player (Players.NONE included), keeps the game status in step with the claim board. */
  lemma MoveKeepsOverWhenClaimed(g: UTTTState, square: int, cell: int, player: Player)
    requires WellFormedGame(g) && OverWhenClaimed(g)
    ensures OverWhenClaimed(Move(g, square, cell, player).0)
  {
    MoveEffects(g, square, cell, player);
    MoveKeepsClaims(g, square, cell, player);
  }

  /** The moves of a game, each a (square, cell, player) triple, made one after another; the flag is the last move's game_win. */
  function Replay(g: UTTTState, moves: seq<(int, int, Player)>): (r: (UTTTState, bool))
    requires WellFormedGame(g)
    ensures WellFormedGame(r.0)
    ensures moves == [] ==> r == (g, false)
    decreases |moves|
  {
    if moves == [] then (g, false)
    else
      var (square, cell, player) := moves[|moves| - 1];
      Move(Replay(g, moves[..|moves| - 1]).0, square, cell, player)
  }

  /** Any sequence of moves from the new game, by any players, keeps the game status in step with the claim board. */
  lemma {:induction false} ReplayKeepsOverWhenClaimed(moves: seq<(int, int, Player)>)
    ensures OverWhenClaimed(Replay(Initial, moves).0)
    decreases |moves|
  {
    if moves != [] {
      var (square, cell, player) := moves[|moves| - 1];
      ReplayKeepsOverWhenClaimed(moves[..|moves| - 1]);
      MoveKeepsOverWhenClaimed(Replay(Initial, moves[..|moves| - 1]).0, square, cell, player);
    }
  }

  /**
   * In every game played from the new game, by any players, once the game is over no further
   * move changes its status or reports a win.
   */
  lemma PlayedGameOverIsFinal(moves: seq<(int, int, Player)>, square: int, cell: int, player: Player)
    requires Replay(Initial, moves).0.gameStatus != NotOver
    ensures Move(Replay(Initial, moves).0, square, cell, player).0.gameStatus == Replay(Initial, moves).0.gameStatus
    ensures !Move(Replay(Initial, moves).0, square, cell, player).1
  {
    ReplayKeepsOverWhenClaimed(moves);
    GameOverIsFinal(Replay(Initial, moves).0, square, cell, player);
  }

  /** X takes the top row of squares 0, 1 and 2, square by square. */
  const TopRows: seq<(int, int, Player)> :=
    [(0, 0, X), (0, 1, X), (0, 2, X), (1, 0, X), (1, 1, X), (1, 2, X), (2, 0, X), (2, 1, X), (2, 2, X)]

  /** Replaying one more move is making it on the state the earlier moves left. */
  lemma ReplayNext(g: UTTTState, moves: seq<(int, int, Player)>, k: int)
    requires WellFormedGame(g) && 0 <= k < |moves|
    ensures Replay(g, moves[..k + 1]) == Move(Replay(g, moves[..k]).0, moves[k].0, moves[k].1, moves[k].2)
  {
    assert moves[..k + 1][..k] == moves[..k];
  }

  /** Replaying three more moves is making them one after another on the state the earlier moves left. */
  lemma ReplayThree(g: UTTTState, moves: seq<(int, int, Player)>, k: int)
    requires WellFormedGame(g) && 0 <= k && k + 3 <= |moves|
    ensures var (square, cell, player) := moves[k + 2];
            Replay(g, moves[..k + 3]) == Move(Replay(g, moves[..k + 2]).0, square, cell, player)
    ensures var (square, cell, player) := moves[k + 1];
            Replay(g, moves[..k + 2]) == Move(Replay(g, moves[..k + 1]).0, square, cell, player)
    ensures var (square, cell, player) := moves[k];
            Replay(g, moves[..k + 1]) == Move(Replay(g, moves[..k]).0, square, cell, player)
  {
    ReplayNext(g, moves, k);
    ReplayNext(g, moves, k + 1);
    ReplayNext(g, moves, k + 2);
  }

  /**
   * X playing cells 0, 1 and 2 of a fresh square claims it on the third move and not before,
   * touches no other square, and plays the square on the claim board with that third move.
   */
  lemma TakeTopRow(g: UTTTState, s: int)
    requires WellFormedGame(g) && IsCell(s) && g.boards[s] == Fresh
    ensures var (g1, w1) := Move(g, s, 0, X);
            var (g2, w2) := Move(g1, s, 1, X);
            var (g3, w3) := Move(g2, s, 2, X);
            !w1 && !w2 && g2.statusBoard == g.statusBoard && g2.gameStatus == g.gameStatus &&
            g3.boards == g.boards[s := XTopRow] &&
            (g3.statusBoard, w3) == Place(g.statusBoard, s, X) &&
            g3.gameStatus == if w3 then XWin else g.gameStatus
  {
    var (g1, w1) := Move(g, s, 0, X);
    assert g1.boards == g.boards[s := Place(Fresh, 0, X).0];
    var (g2, w2) := Move(g1, s, 1, X);
    assert g2.boards == g.boards[s := Place(Place(Fresh, 0, X).0, 1, X).0];
    var (g3, w3) := Move(g2, s, 2, X);
    TopRowPlacements();
  }

  /** After X's first three moves, square 0 holds X's top row and the claim board has X in cell 0. */
  lemma FirstSquareTaken()
    ensures Replay(Initial, TopRows[..3]) == (UTTTState(Initial.boards[0 := XTopRow], Place(Fresh, 0, X).0, NotOver), false)
  {
    assert TopRows[..0] == [];
    ReplayThree(Initial, TopRows, 0);
    TakeTopRow(Initial, 0);
    TopRowPlacements();
  }

  /** After X's first six moves, squares 0 and 1 hold X's top row and the claim board has X in cells 0 and 1. */
  lemma SecondSquareTaken()
    ensures Replay(Initial, TopRows[..6]) ==
            (UTTTState(Initial.boards[0 := XTopRow][1 := XTopRow], Place(Place(Fresh, 0, X).0, 1, X).0, NotOver), false)
  {
    FirstSquareTaken();
    ReplayThree(Initial, TopRows, 3);
    TakeTopRow(Replay(Initial, TopRows[..3]).0, 1);
    TopRowPlacements();
  }

  /**
   * Claiming squares 0, 1 and 2 gives X the top row of the claim board: the game is still open
   * after eight of the moves and the ninth wins it for X, reporting game_win.
   */
  lemma TopRowsWinGame()
    ensures Replay(Initial, TopRows[..8]).0.gameStatus == NotOver && !Replay(Initial, TopRows[..8]).1
    ensures Replay(Initial, TopRows).0.gameStatus == XWin && Replay(Initial, TopRows).1
  {
    assert TopRows[..9] == TopRows;
    SecondSquareTaken();
    ReplayThree(Initial, TopRows, 6);
    TakeTopRow(Replay(Initial, TopRows[..6]).0, 2);
    TopRowPlacements();
  }

  /** The game after X's opening move in cell 0 of square 0. */
  const AfterOpening: UTTTState := Initial.(boards := Initial.boards[0 := XTopLeft])

  /** The opening move X in cell 0 of square 0 wins nothing, and afterwards that cell is no longer a valid move. */
  lemma OpeningMove()
    ensures Move(Initial, 0, 0, X) == (AfterOpening, false)
    ensures !ValidMove(AfterOpening, 0, 0)
  {
    InitialIsValid();
    PlaceTopLeft();
  }
}
