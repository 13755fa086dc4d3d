/**
 * The earlier revision of the engine (src/model/UTTT_Board.py), modelled as written. Its
 * TTT_Board keeps the same counters as the later TTTBoard, but its claim check reads odd index
 * lists and stores the marker it finds as the status; its UTTT_Board writes a cell straight
 * into the sub-board's array, with no counters, no claim and no claim board, and accepts cell 9
 * in its bounds check.
 */
module Legacy {
  import opened Enums
  import opened Lines
  import opened Observers

  /**
   * Claim_Status.NONE, or whatever Check_Players stored: it assigns the marker of the line's
   * first cell, a Players value, to status. Every value other than ClaimNone locks the board.
   */
  datatype Status = ClaimNone | Marker(p: Player)

  /** The fields of a TTT_Board as a value. */
  datatype OldState = OldState(board: Cells, status: Status, rows: Counters, cols: Counters, diag: int, odiag: int)

  /** What the constructor builds: nine NONE cells, status NONE, all counters zero. */
  const OldFresh: OldState := OldState(seq(9, _ => Empty), ClaimNone, [0, 0, 0], [0, 0, 0], 0, 0)

  /** The list Check_Claimed hands over for the row counter of cell: it starts at the row number, not at the row's first cell. */
  function RowList(cell: int): (cells: seq<int>)
    requires IsCell(cell)
    ensures IsLine(cells)
  {
    [cell / 3, cell / 3 + 1, cell / 3 + 2]
  }

  /** The list Check_Claimed hands over for the column counter of cell: its third index repeats the second. */
  function ColList(cell: int): (cells: seq<int>)
    requires IsCell(cell)
    ensures IsLine(cells)
  {
    [cell % 3, cell % 3 + 3, cell % 3 + 3]
  }

  /** Checked for the counter of cells 0, 4, 8 (DiagContainer). */
  const DiagList: seq<int> := [2, 4, 6]

  /** Checked for the counter of cells 2, 4, 6 (ODiagContainer). */
  const ODiagList: seq<int> := [0, 4, 8]

  /** Cell j of the list holds the same value as the next one round the list. */
  predicate NextSame(b: Cells, cells: seq<int>, j: int)
    requires IsLine(cells) && 0 <= j < 3
  {
    b[cells[j]] == b[cells[(j + 1) % 3]]
  }

  /** Check_Players: an unclaimed board whose listed cells are all equal takes the first cell's marker as its status. */
  function Checked(b: Cells, status: Status, cells: seq<int>): Status
    requires IsLine(cells)
  {
    if status == ClaimNone && Uniform(b, cells) then Marker(b[cells[0]]) else status
  }

  /** Check_Claimed: four independent tests, each handing its list to Check_Players when its counter is 3. */
  function Claimed(t: OldState, cell: int): Status
    requires IsCell(cell)
  {
    var afterRow := if t.rows[cell / 3] == 3 then Checked(t.board, t.status, RowList(cell)) else t.status;
    var afterCol := if t.cols[cell % 3] == 3 then Checked(t.board, afterRow, ColList(cell)) else afterRow;
    var afterDiag := if t.diag == 3 then Checked(t.board, afterCol, DiagList) else afterCol;
    if t.odiag == 3 then Checked(t.board, afterDiag, ODiagList) else afterDiag
  }

  /** Add_Marker: writes the cell, bumps the counters of the cell's lines, then runs Check_Claimed. */
  function OldPlace(t: OldState, cell: int, p: Player): OldState
    requires IsCell(cell)
  {
    var marked := OldState(t.board[cell := p], t.status,
                           t.rows[cell / 3 := t.rows[cell / 3] + 1],
                           t.cols[cell % 3 := t.cols[cell % 3] + 1],
                           t.diag + (if cell % 4 == 0 then 1 else 0),
                           t.odiag + (if cell % 2 == 0 && cell % 8 != 0 then 1 else 0));
    marked.(status := Claimed(marked, cell))
  }

  /** A test of Check_Claimed goes through: its counter is 3 and its list holds three equal values. */
  predicate Fires(b: Cells, counter: int, cells: seq<int>)
    requires IsLine(cells)
  {
    counter == 3 && Uniform(b, cells)
  }

  /**
   * Check_Players never overwrites a status other than NONE, and replaces NONE exactly when
   * the three listed cells are equal, by the marker they hold.
   */
  lemma CheckedIsFinal(b: Cells, status: Status, cells: seq<int>)
    requires IsLine(cells)
    ensures status != ClaimNone ==> Checked(b, status, cells) == status
    ensures Checked(b, status, cells) != status <==> status == ClaimNone && Uniform(b, cells)
    ensures Checked(b, status, cells) != status ==> forall i :: 0 <= i < 3 ==> Checked(b, status, cells) == Marker(b[cells[i]])
  {
  }

  /**
   * Check_Claimed on an unclaimed board takes the first test that goes through, in the order
   * row, column, DiagContainer, ODiagContainer, with the lists as written; a board that is
   * not unclaimed keeps its status.
   */
  lemma CheckClaimedRule(t: OldState, cell: int)
    requires IsCell(cell)
    ensures t.status != ClaimNone ==> Claimed(t, cell) == t.status
    ensures t.status == ClaimNone ==>
              Claimed(t, cell) ==
                if Fires(t.board, t.rows[cell / 3], RowList(cell)) then Marker(t.board[cell / 3])
                else if Fires(t.board, t.cols[cell % 3], ColList(cell)) then Marker(t.board[cell % 3])
                else if Fires(t.board, t.diag, DiagList) then Marker(t.board[2])
                else if Fires(t.board, t.odiag, ODiagList) then Marker(t.board[0])
                else ClaimNone
  {
    var s := t.status;
    var afterRow := if t.rows[cell / 3] == 3 then Checked(t.board, s, RowList(cell)) else s;
    CheckedIsFinal(t.board, s, RowList(cell));
    var afterCol := if t.cols[cell % 3] == 3 then Checked(t.board, afterRow, ColList(cell)) else afterRow;
    CheckedIsFinal(t.board, afterRow, ColList(cell));
    var afterDiag := if t.diag == 3 then Checked(t.board, afterCol, DiagList) else afterCol;
    CheckedIsFinal(t.board, afterCol, DiagList);
    CheckedIsFinal(t.board, afterDiag, ODiagList);
  }

  /**
   * Add_Marker writes exactly its cell and adds one to the counter of each line through the
   * cell and to no other, as the later revision does; a board whose status is not NONE keeps it.
   */
  lemma OldPlaceEffects(t: OldState, cell: int, p: Player)
    requires IsCell(cell)
    ensures var t' := OldPlace(t, cell, p);
            t'.board == t.board[cell := p] &&
            (forall r :: 0 <= r < 3 ==> t'.rows[r] == t.rows[r] + if cell in RowCells(r) then 1 else 0) &&
            (forall c :: 0 <= c < 3 ==> t'.cols[c] == t.cols[c] + if cell in ColCells(c) then 1 else 0) &&
            t'.diag == t.diag + (if cell in DiagCells then 1 else 0) &&
            t'.odiag == t.odiag + (if cell in AntiDiagCells then 1 else 0) &&
            (t.status != ClaimNone ==> t'.status == t.status)
  {
    forall r | 0 <= r < 3
      ensures cell in RowCells(r) <==> r == cell / 3
    {
    }
    forall c | 0 <= c < 3
      ensures cell in ColCells(c) <==> c == cell % 3
    {
    }
    CheckClaimedRule(OldPlace(t, cell, p).(status := t.status), cell);
  }

  /**
   * Both revisions place a marker alike: from the same cells and counters, Add_Marker and the
   * later add_marker leave the same cells and counters. Only the claim differs.
   */
  lemma PlacementsAgree(earlier: OldState, later: TTTState, cell: int, p: Player)
    requires IsCell(cell)
    requires earlier.board == later.board && earlier.rows == later.rows && earlier.cols == later.cols
    requires earlier.diag == later.diag && earlier.odiag == later.odiag
    ensures var o := OldPlace(earlier, cell, p);
            var n := Place(later, cell, p).0;
            o.board == n.board && o.rows == n.rows && o.cols == n.cols && o.diag == n.diag && o.odiag == n.odiag
  {
    assert OnDiag(cell) <==> cell % 4 == 0;
    assert OnAntiDiag(cell) <==> cell % 2 == 0 && cell % 8 != 0;
  }

  /** X in cells 3, 4 and 5 fills the middle row, yet the board stays unclaimed: the row list checked is [1, 2, 3]. */
  lemma MiddleRowNotClaimed()
    ensures var t := OldPlace(OldPlace(OldPlace(OldFresh, 3, X), 4, X), 5, X);
            t.board[3] == X && t.board[4] == X && t.board[5] == X && t.status == ClaimNone
  {
    var e := Empty;
    var t1 := OldPlace(OldFresh, 3, X);
    assert t1 == OldState([e, e, e, X, e, e, e, e, e], ClaimNone, [0, 1, 0], [1, 0, 0], 0, 0);
    var t2 := OldPlace(t1, 4, X);
    assert t2 == OldState([e, e, e, X, X, e, e, e, e], ClaimNone, [0, 2, 0], [1, 1, 0], 1, 1);
    var t3 := OldPlace(t2, 5, X);
    assert t3.board == [e, e, e, X, X, X, e, e, e];
    assert t3.rows == [0, 3, 0] && t3.cols == [1, 1, 1] && t3.diag == 1 && t3.odiag == 1;
  }

  /** X in 0 and 3 and O in 6 fill column 0 with X, X, O, and O's move claims the board for X: the column list checked is [0, 3, 3]. */
  lemma MixedColumnClaimed()
    ensures var t := OldPlace(OldPlace(OldPlace(OldFresh, 0, X), 3, X), 6, O);
            t.board[0] == X && t.board[3] == X && t.board[6] == O && t.status == Marker(X)
  {
    var e := Empty;
    var t1 := OldPlace(OldFresh, 0, X);
    assert t1 == OldState([X, e, e, e, e, e, e, e, e], ClaimNone, [1, 0, 0], [1, 0, 0], 1, 0);
    var t2 := OldPlace(t1, 3, X);
    assert t2 == OldState([X, e, e, X, e, e, e, e, e], ClaimNone, [1, 1, 0], [2, 0, 0], 1, 0);
    var t3 := OldPlace(t2, 6, O);
    assert t3.board == [X, e, e, X, e, e, O, e, e];
    assert t3.rows == [1, 1, 1] && t3.cols == [3, 0, 0] && t3.diag == 1 && t3.odiag == 1;
  }

  /** X in cells 0, 4 and 8 fills the main diagonal, yet the board stays unclaimed: its counter checks [2, 4, 6]. */
  lemma DiagonalNotClaimed()
    ensures var t := OldPlace(OldPlace(OldPlace(OldFresh, 0, X), 4, X), 8, X);
            t.board[0] == X && t.board[4] == X && t.board[8] == X && t.status == ClaimNone
  {
    var e := Empty;
    var t1 := OldPlace(OldFresh, 0, X);
    assert t1 == OldState([X, e, e, e, e, e, e, e, e], ClaimNone, [1, 0, 0], [1, 0, 0], 1, 0);
    var t2 := OldPlace(t1, 4, X);
    assert t2 == OldState([X, e, e, e, X, e, e, e, e], ClaimNone, [1, 1, 0], [1, 1, 0], 2, 1);
    var t3 := OldPlace(t2, 8, X);
    assert t3.board == [X, e, e, e, X, e, e, e, X];
    assert t3.rows == [1, 1, 1] && t3.cols == [1, 1, 1] && t3.diag == 3 && t3.odiag == 1;
  }

  /**
   * X in 6, O in 7 and X in 8 fill the bottom row without a winner, and the board takes the
   * NONE marker of cell 2 as its status (the row list checked is [2, 3, 4], all empty): no
   * cell of it can be played again.
   */
  lemma EmptyRowLocksBoard()
    ensures var t := OldPlace(OldPlace(OldPlace(OldFresh, 6, X), 7, O), 8, X);
            t.board[6] == X && t.board[7] == O && t.board[8] == X && t.status == Marker(Empty)
  {
    var e := Empty;
    var t1 := OldPlace(OldFresh, 6, X);
    assert t1 == OldState([e, e, e, e, e, e, X, e, e], ClaimNone, [0, 0, 1], [1, 0, 0], 0, 1);
    var t2 := OldPlace(t1, 7, O);
    assert t2 == OldState([e, e, e, e, e, e, X, O, e], ClaimNone, [0, 0, 2], [1, 1, 0], 0, 1);
    var t3 := OldPlace(t2, 8, X);
    assert t3.board == [e, e, e, e, e, e, X, O, X];
    assert t3.rows == [0, 0, 3] && t3.cols == [1, 1, 1] && t3.diag == 1 && t3.odiag == 1;
  }

  /** One 3x3 board of the earlier revision (TTT_Board); its cells are a numpy array, its counters lists. */
  class TTTBoard {
    const board: array<Player>
    var status: Status
    var rowContainer: Counters
    var colContainer: Counters
    var diagContainer: int
    var odiagContainer: int

    /** The fields as a value. */
    ghost function State(): OldState
      reads this, board
      requires board.Length == 9
    {
      OldState(board[..], status, rowContainer, colContainer, diagContainer, odiagContainer)
    }

    constructor ()
      ensures fresh(board) && board.Length == 9 && State() == OldFresh
      ensures forall c :: IsCell(c) ==> IsValidMove(c) == Ok(true)
    {
      board := new Player[9](_ => Empty);
      status := ClaimNone;
      rowContainer := [0, 0, 0];
      colContainer := [0, 0, 0];
      diagContainer := 0;
      odiagContainer := 0;
      new;
      assert board[..] == OldFresh.board;
    }

    /**
     * Is_Valid_Move: false on a board whose status is not NONE; otherwise whether the cell is
     * empty, with numpy's subscript, so an index outside -9..8 raises IndexError.
     */
    function IsValidMove(cell: int): (r: Result<bool>)
      reads this, board
      requires board.Length == 9
      ensures status != ClaimNone ==> r == Ok(false)
      ensures r == IndexError <==> status == ClaimNone && !(-9 <= cell < 9)
      ensures IsCell(cell) ==> (r == Ok(true) <==> status == ClaimNone && board[cell] == Empty)
    {
      if status != ClaimNone then Ok(false)
      else match PyIndex(cell, 9)
        case IndexError => IndexError
        case Ok(c) => Ok(board[c] == Empty)
    }

    /** Add_Marker: the caller is trusted to pass a cell of the board. */
    method AddMarker(player: Player, cell: int)
      requires IsCell(cell) && board.Length == 9
      modifies this, board
      ensures State() == OldPlace(old(State()), cell, player)
    {
      board[cell] := player;
      rowContainer := rowContainer[cell / 3 := rowContainer[cell / 3] + 1];
      colContainer := colContainer[cell % 3 := colContainer[cell % 3] + 1];
      if cell % 4 == 0 {
        diagContainer := diagContainer + 1;
      }
      if cell % 2 == 0 && cell % 8 != 0 {
        odiagContainer := odiagContainer + 1;
      }
      CheckClaimed(cell);
    }

    /** Check_Claimed: each counter that reached 3 has its list, as written, checked by Check_Players. */
    method CheckClaimed(cell: int)
      requires IsCell(cell) && board.Length == 9
      modifies this`status
      ensures status == Claimed(old(State()), cell)
    {
      if rowContainer[cell / 3] == 3 {
        CheckPlayers(RowList(cell));
      }
      if colContainer[cell % 3] == 3 {
        CheckPlayers(ColList(cell));
      }
      if diagContainer == 3 {
        CheckPlayers(DiagList);
      }
      if odiagContainer == 3 {
        CheckPlayers(ODiagList);
      }
    }

    /** Check_Players: on an unclaimed board, compares each listed cell with the next one round the list and, if none differ, stores the first cell's marker as the status. */
    method CheckPlayers(cells: seq<int>)
      requires IsLine(cells) && board.Length == 9
      modifies this`status
      ensures status == Checked(board[..], old(status), cells)
    {
      if status == ClaimNone {
        for i := 0 to 3
          invariant forall j :: 0 <= j < i ==> NextSame(board[..], cells, j)
        {
          if board[cells[i]] != board[cells[(i + 1) % 3]] {
            assert !NextSame(board[..], cells, i);
            return;
          }
        }
        assert NextSame(board[..], cells, 0) && NextSame(board[..], cells, 1);
        status := Marker(board[cells[0]]);
      }
    }

    /** Get_Cell_Contents, with numpy's subscript. */
    function GetCellContents(cell: int): (r: Result<Player>)
      reads board
      requires board.Length == 9
      ensures r.Ok? <==> -9 <= cell < 9
      ensures IsCell(cell) ==> r == Ok(board[cell])
    {
      match PyIndex(cell, 9)
      case IndexError => IndexError
      case Ok(c) => Ok(board[c])
    }
  }

  /** The earlier whole board (UTTT_Board): nine sub-boards, the observers and a game status no method changes. */
  class UTTTBoard {
    const board: seq<TTTBoard>
    var observers: seq<ObserverRef>
    var gameStatus: GameStatus
    /** Every observer.update call made so far, in order. */
    ghost var notifications: seq<Notification>
    /** The cell arrays of the nine sub-boards, the only memory Make_Move writes. */
    ghost const Arrays: set<array<Player>>
    /** The sub-boards and their arrays. */
    ghost const Repr: set<object>

    /** Nine sub-boards of nine cells each, with distinct arrays. */
    ghost predicate Shaped()
    {
      |board| == 9 &&
      (forall s :: 0 <= s < 9 ==> board[s].board.Length == 9 && board[s].board in Arrays) &&
      (forall s :: 0 <= s < 9 ==> board[s] in Repr && board[s].board in Repr) &&
      (forall s, t :: 0 <= s < t < 9 ==> board[s].board != board[t].board)
    }

    constructor ()
      ensures Shaped() && observers == [] && notifications == [] && gameStatus == NotOver
      ensures fresh(Arrays)
      ensures forall s :: 0 <= s < 9 ==> board[s].State() == OldFresh
    {
      var boards: seq<TTTBoard> := [];
      while |boards| < 9
        invariant |boards| <= 9
        invariant forall s :: 0 <= s < |boards| ==> fresh(boards[s].board) && boards[s].board.Length == 9
        invariant forall s :: 0 <= s < |boards| ==> boards[s].State() == OldFresh
        invariant forall s, t :: 0 <= s < t < |boards| ==> boards[s].board != boards[t].board
      {
        var t := new TTTBoard();
        boards := boards + [t];
      }
      board := boards;
      Arrays := set s | 0 <= s < 9 :: boards[s].board;
      Repr := (set s | 0 <= s < 9 :: boards[s]) + (set s | 0 <= s < 9 :: boards[s].board);
      observers := [];
      gameStatus := NotOver;
      notifications := [];
    }

    method AddObserver(observer: ObserverRef)
      modifies this`observers
      ensures observers == old(observers) + [observer]
    {
      observers := observers + [observer];
    }

    /** Notify_Observers: calls update on every observer, in registration order, with the same message. */
    method NotifyObservers(message: string)
      modifies this`notifications
      ensures notifications == old(notifications) + Broadcast(|observers|, Some(message))
    {
      for i := 0 to |observers|
        invariant notifications == old(notifications) + Broadcast(i, Some(message))
      {
        notifications := notifications + [Notification(i, Some(message))];
      }
    }

    /**
     * Is_Valid_Move: false for a square outside 0..8 or a cell outside 0..9; otherwise the
     * sub-board's answer, which for cell 9 is an IndexError unless the sub-board is claimed.
     */
    function IsValidMove(square: int, cell: int): (r: Result<bool>)
      reads Repr
      requires Shaped()
      ensures !(IsCell(square) && 0 <= cell <= 9) ==> r == Ok(false)
      ensures IsCell(square) && cell == 9 ==> r == if board[square].status == ClaimNone then IndexError else Ok(false)
      ensures r == Ok(true) <==> IsCell(square) && IsCell(cell) && board[square].status == ClaimNone && board[square].board[cell] == Empty
    {
      if square < 0 || square > 8 || cell < 0 || cell > 9 then Ok(false)
      else board[square].IsValidMove(cell)
    }

    /**
     * Make_Move: a valid move writes the marker straight into the sub-board's cell and does
     * nothing else; an invalid one tells every observer "Invalid Move."; an IndexError from
     * the check propagates before anything changes.
     */
    method MakeMove(square: int, cell: int, player: Player) returns (r: Result<()>)
      requires Shaped()
      modifies this`notifications, Arrays
      ensures r == IndexError <==> old(IsValidMove(square, cell)) == IndexError
      ensures old(IsValidMove(square, cell)) == Ok(true) ==>
                board[square].board[..] == old(board[square].board[..])[cell := player]
      ensures forall s :: 0 <= s < 9 && !(old(IsValidMove(square, cell)) == Ok(true) && s == square) ==>
                board[s].board[..] == old(board[s].board[..])
      ensures notifications == old(notifications) +
                if old(IsValidMove(square, cell)) == Ok(false) then Broadcast(|observers|, Some(InvalidMoveMessage)) else []
    {
      var valid := IsValidMove(square, cell);
      match valid
      case IndexError =>
        r := IndexError;
      case Ok(true) =>
        board[square].board[cell] := player;
        r := Ok(());
      case Ok(false) =>
        NotifyObservers(InvalidMoveMessage);
        r := Ok(());
    }

    /** Get_Content: Python's subscript on the list of sub-boards, then numpy's on the cells. */
    function GetContent(square: int, cell: int): (r: Result<Player>)
      reads Repr
      requires Shaped()
      ensures r.Ok? <==> -9 <= square < 9 && -9 <= cell < 9
      ensures IsCell(square) && IsCell(cell) ==> r == Ok(board[square].board[cell])
    {
      match PyIndex(square, 9)
      case IndexError => IndexError
      case Ok(s) => board[s].GetCellContents(cell)
    }
  }

  /** On a new board, asking about cell 9 of square 0 raises IndexError instead of answering false. */
  method NinthCellRaises() returns (r: Result<bool>)
    ensures r == IndexError
  {
    var u := new UTTTBoard();
    r := u.IsValidMove(0, 9);
  }

  /**
   * On a new board, X playing cells 0, 1 and 2 of square 0 fills the top row, yet the square
   * stays unclaimed and the game status stays NOT_OVER: Make_Move bypasses Add_Marker.
   */
  method TopRowNeverClaimed() returns (status: Status, game: GameStatus, cells: seq<Player>)
    ensures |cells| == 9 && cells[..3] == [X, X, X] && status == ClaimNone && game == NotOver
  {
    var u := new UTTTBoard();
    var r1 := u.MakeMove(0, 0, X);
    var r2 := u.MakeMove(0, 1, X);
    var r3 := u.MakeMove(0, 2, X);
    status := u.board[0].status;
    game := u.gameStatus;
    cells := u.board[0].board[..];
  }
}
