/**
 * The Ultimate Tic-Tac-Toe board (class UTTTBoard of src/model/UTTTBoard.py): nine TTTBoards,
 * a tenth one (the claim board) on which each claimed square is played for its claimant, the
 * game status, and the observers told about every attempted move.
 */
module MetaBoard {
  import opened Enums
  import opened Lines
  import opened Game
  import opened Observers
  import opened Render
  import opened SubBoard

  class UTTTBoard {
    const board: seq<TTTBoard>
    const statusBoard: TTTBoard
    var observers: seq<ObserverRef>
    var gameStatus: GameStatus
    /** Every observer.update call made so far, in order. */
    ghost var notifications: seq<Notification>
    /** The ten boards this object owns. */
    ghost const Repr: set<TTTBoard>

    /** Nine distinct sub-boards and a separate claim board, all owned by this object. */
    ghost predicate Shaped()
    {
      |board| == 9 &&
      (forall i :: 0 <= i < 9 ==> board[i] in Repr) && statusBoard in Repr &&
      (forall i, j :: 0 <= i < j < 9 ==> board[i] != board[j]) &&
      (forall i :: 0 <= i < 9 ==> board[i] != statusBoard)
    }

    /** The whole board as a value, kept up to date by every method (see Tied). */
    ghost var model: UTTTState

    /** The model agrees with the fields of the ten boards and with the game status. */
    ghost predicate Tied()
      reads this, Repr
      requires Shaped()
    {
      |model.boards| == 9 &&
      (forall s :: 0 <= s < 9 ==> model.boards[s] == board[s].State()) &&
      model.statusBoard == statusBoard.State() && model.gameStatus == gameStatus
    }

    /** The game invariant (GameValid) holds of the fields. */
    ghost predicate Valid()
      reads this, Repr
    {
      Shaped() && Tied() && GameValid(model)
    }

    constructor ()
      ensures Valid() && model == Initial
      ensures fresh(statusBoard) && forall s :: 0 <= s < 9 ==> fresh(board[s])
      ensures fresh(Repr)
      ensures observers == [] && notifications == []
      ensures forall s, c :: IsCell(s) && IsCell(c) ==> IsValidMove(s, c)
    {
      var boards: seq<TTTBoard> := [];
      while |boards| < 9
        invariant |boards| <= 9
        invariant forall i :: 0 <= i < |boards| ==> fresh(boards[i]) && boards[i].State() == Fresh
        invariant forall i, j :: 0 <= i < j < |boards| ==> boards[i] != boards[j]
      {
        var t := new TTTBoard();
        boards := boards + [t];
      }
      board := boards;
      var claims := new TTTBoard();
      statusBoard := claims;
      Repr := (set i | 0 <= i < 9 :: boards[i]) + {claims};
      observers := [];
      gameStatus := NotOver;
      notifications := [];
      model := Initial;
      new;
      InitialBoardIsValid();
    }

    /** A board whose model is the new game is valid, and every move on it is valid. */
    lemma InitialBoardIsValid()
      requires Shaped() && Tied() && model == Initial
      ensures Valid()
      ensures forall s, c :: IsCell(s) && IsCell(c) ==> IsValidMove(s, c)
    {
      InitialIsValid();
    }

    method AddObserver(observer: ObserverRef)
      modifies this`observers
      ensures observers == old(observers) + [observer]
    {
      observers := observers + [observer];
    }

    /** Calls update on every observer, in registration order, with the same message. */
    method NotifyObservers(message: Option<string>)
      modifies this`notifications
      ensures notifications == old(notifications) + Broadcast(|observers|, message)
    {
      for i := 0 to |observers|
        invariant notifications == old(notifications) + Broadcast(i, message)
      {
        notifications := notifications + [Notification(i, message)];
      }
    }

    /**
     * Plays player in cell of square if that move is valid, carries a newly claimed square
     * over to the claim board, and reports the move to the observers. Returns whether this
     * move won the game.
     */
    method MakeMove(square: int, cell: int, player: Player) returns (gameWin: bool)
      requires Shaped() && Tied()
      modifies this, Repr
      ensures Tied() && observers == old(observers)
      ensures notifications == old(notifications) +
                Broadcast(|observers|, if old(IsValidMove(square, cell)) then None else Some(InvalidMoveMessage))
      ensures (model, gameWin) == Move(old(model), square, cell, player)
    {
      gameWin := false;
      if IsValidMove(square, cell) {
        var claimed := board[square].AddMarker(player, cell);
        assert observers == old(observers);
        model := model.(boards := model.boards[square := board[square].State()]);
        if claimed {
          var won := statusBoard.AddMarker(player, square);
          assert observers == old(observers);
          model := model.(statusBoard := statusBoard.State());
          if won {
            if player == X {
              gameStatus := XWin;
            } else {
              gameStatus := OWin;
            }
            gameWin := true;
            model := model.(gameStatus := gameStatus);
          }
        }
        NotifyObservers(None);
      } else {
        NotifyObservers(Some(InvalidMoveMessage));
      }
      assert observers == old(observers);
    }

    /** A move is valid when square and cell are board indices and the sub-board accepts the cell. */
    function IsValidMove(square: int, cell: int): (r: bool)
      reads Repr
      requires Shaped()
      ensures !(IsCell(square) && IsCell(cell)) ==> !r
      ensures Tied() ==> (r <==> ValidMove(model, square, cell))
      ensures IsCell(square) && IsCell(cell) ==> (r <==> board[square].IsValidMove(cell))
    {
      if square < 0 || square > 8 || cell < 0 || cell > 8 then false
      else board[square].IsValidMove(cell)
    }

    /** The marker in cell of square, with Python's list indexing, raising IndexError outside -9..8. */
    function GetContent(square: int, cell: int): (r: Result<Player>)
      reads Repr
      requires Shaped()
      ensures r.Ok? <==> -9 <= square < 9 && -9 <= cell < 9
      ensures IsCell(square) && IsCell(cell) ==> r == Ok(board[square].board[cell])
    {
      match PyIndex(square, 9)
      case IndexError => IndexError
      case Ok(s) =>
        match PyIndex(cell, 9)
        case IndexError => IndexError
        case Ok(c) => Ok(board[s].board[c])
    }

    /** The cells of all nine squares. */
    ghost function Grid(): (g: seq<seq<Player>>)
      reads Repr
      requires Shaped()
      ensures IsGrid(g) && forall s :: 0 <= s < 9 ==> g[s] == board[s].board
    {
      [board[0].board, board[1].board, board[2].board,
       board[3].board, board[4].board, board[5].board,
       board[6].board, board[7].board, board[8].board]
    }

    /** The text dump of the board (__str__). */
    method ToString() returns (ret: string)
      requires Shaped()
      ensures ret == Rendering(Grid())
    {
      ret := "";
      ghost var g := Grid();
      for i := 0 to 81
        invariant ret == RenderUpTo(g, i)
      {
        if i % 27 == 0 && i != 0 {
          ret := ret + RowSeparator;
        }
        if i % 9 == 0 {
          ret := ret + "\n";
        }
        if i % 3 == 0 && i % 9 != 0 {
          ret := ret + "|| ";
        }
        var content := GetContent(SquareAt(i), CellAt(i));
        ret := ret + [Display(content.value), ' '];
      }
    }
  }

  /** A new board with observers 1 and 2 registered, in that order, and nothing told to them yet. */
  method NewWithTwoObservers() returns (u: UTTTBoard)
    ensures fresh(u) && fresh(u.Repr) && u.Shaped() && u.Tied()
    ensures u.model == Initial && u.observers == [ObserverRef(1), ObserverRef(2)] && u.notifications == []
  {
    u := new UTTTBoard();
    u.AddObserver(ObserverRef(1));
    u.AddObserver(ObserverRef(2));
  }

  /** X opens in cell 0 of square 0 of a new board: the move wins nothing and both observers are told None. */
  method OpenWithTwoObservers() returns (u: UTTTBoard, first: bool)
    ensures fresh(u) && fresh(u.Repr) && u.Shaped() && u.Tied()
    ensures u.model == AfterOpening && !first
    ensures |u.observers| == 2 && u.notifications == Broadcast(2, None)
  {
    u := NewWithTwoObservers();
    OpeningMove();
    assert u.IsValidMove(0, 0);
    first := u.MakeMove(0, 0, X);
    assert u.notifications == [] + Broadcast(2, None);
  }

  /**
   * After the opening, O's move into the taken cell and X's move into square 9 are both refused:
   * neither changes the board or wins, and each is told to both observers as "Invalid Move.".
   */
  method RefuseTakenAndOutside(u: UTTTBoard) returns (second: bool, third: bool)
    requires u.Shaped() && u.Tied() && u.model == AfterOpening && |u.observers| == 2
    modifies u, u.Repr
    ensures u.Tied() && u.model == AfterOpening && !second && !third && u.observers == old(u.observers)
    ensures u.notifications ==
            old(u.notifications) + Broadcast(2, Some(InvalidMoveMessage)) + Broadcast(2, Some(InvalidMoveMessage))
  {
    OpeningMove();
    assert !u.IsValidMove(0, 0);
    second := u.MakeMove(0, 0, O);
    assert u.model == AfterOpening && |u.observers| == 2;
    third := u.MakeMove(9, 0, X);
  }

  /**
   * Two observers on a new board: X's move in cell 0 of square 0 is told to both, in order,
   * with None; O's move into the same cell and a move into square 9 are refused, each told
   * to both as "Invalid Move.", and leave X's marker in place. No move wins.
   */
  method ObserversSeeEveryMove() returns (wins: seq<bool>, content: Result<Player>, ghost trace: seq<Notification>)
    ensures wins == [false, false, false] && content == Ok(X)
    ensures trace == Broadcast(2, None) + Broadcast(2, Some(InvalidMoveMessage)) + Broadcast(2, Some(InvalidMoveMessage))
  {
    var u, first := OpenWithTwoObservers();
    var second, third := RefuseTakenAndOutside(u);
    assert u.board[0].State() == XTopLeft;
    wins := [first, second, third];
    content := u.GetContent(0, 0);
    trace := u.notifications;
  }
}
