/** One 3x3 board of Ultimate Tic-Tac-Toe (class TTTBoard of src/model/UTTTBoard.py). */
module SubBoard {
  import opened Enums
  import opened Lines

  class TTTBoard {
    var board: Cells
    var status: ClaimStatus
    var rowContainer: Counters
    var colContainer: Counters
    var diagContainer: int
    var odiagContainer: int

    /** The fields as a value. */
    ghost function State(): (t: TTTState)
      reads this
    {
      TTTState(board, status, rowContainer, colContainer, diagContainer, odiagContainer)
    }

    /**
     * The board invariant kept by every valid move: the counters count the markers on their
     * lines, an unclaimed board has no three in a row, and a claim is backed by the claimant's line.
     */
    ghost predicate Valid()
      reads this
    {
      Good(State())
    }

    constructor ()
      ensures Valid() && State() == Fresh
      ensures forall c :: IsCell(c) ==> IsValidMove(c)
    {
      board := seq(9, _ => Empty);
      status := Unclaimed;
      rowContainer := [0, 0, 0];
      colContainer := [0, 0, 0];
      diagContainer := 0;
      odiagContainer := 0;
      new;
      FreshIsGood();
    }

    /** A move in cell is allowed only on an unclaimed board and an empty cell. */
    function IsValidMove(cell: int): (r: bool)
      reads this
      requires IsCell(cell)
      ensures r <==> CanPlay(State(), cell)
      ensures status != Unclaimed ==> !r
      ensures Valid() && r ==> NoWinner(board)
    {
      status == Unclaimed && board[cell] == Empty
    }

    /**
     * Places player in cell, bumps the counters of the cell's lines and runs the claim check.
     * The caller is trusted to have checked the move (the source re-validates nothing).
     */
    method AddMarker(player: Player, cell: int) returns (claimed: bool)
      requires IsCell(cell)
      modifies this
      ensures (State(), claimed) == Place(old(State()), cell, player)
      ensures old(Valid()) && old(board[cell]) == Empty && player != Empty ==> Valid()
    {
      ghost var r := Place(State(), cell, player);
      board := board[cell := player];
      rowContainer := rowContainer[cell / 3 := rowContainer[cell / 3] + 1];
      colContainer := colContainer[cell % 3 := colContainer[cell % 3] + 1];
      if cell % 4 == 0 {
        diagContainer := diagContainer + 1;
      }
      if cell % 2 == 0 && cell % 8 != 0 {
        odiagContainer := odiagContainer + 1;
      }
      assert board == r.0.board && rowContainer == r.0.rows && colContainer == r.0.cols;
      assert diagContainer == r.0.diag && odiagContainer == r.0.odiag;
      claimed := CheckClaimedCell(cell);
      GoodAfterLegalPlace(old(State()), cell, player);
    }

    /** Looks, in the order row, column, diagonal, anti-diagonal, for a full line of equal markers and claims the board with it. */
    method CheckClaimedCell(cell: int) returns (boardClaimed: bool)
      requires IsCell(cell)
      modifies this`status
      ensures var line := ClaimedLine(board, rowContainer, colContainer, diagContainer, odiagContainer, cell);
              && (boardClaimed <==> old(status) == Unclaimed && line.Some?)
              && status == if boardClaimed then ClaimFor(board[line.value[0]]) else old(status)
    {
      boardClaimed := false;
      if rowContainer[cell / 3] == 3 {
        var c := CheckPlayers(RowCells(cell / 3));
        if c {
          boardClaimed := true;
        }
      }
      if !boardClaimed && colContainer[cell % 3] == 3 {
        var c := CheckPlayers(ColCells(cell % 3));
        if c {
          boardClaimed := true;
        }
      }
      if !boardClaimed && diagContainer == 3 {
        var c := CheckPlayers(DiagCells);
        if c {
          boardClaimed := true;
        }
      }
      if !boardClaimed && odiagContainer == 3 {
        var c := CheckPlayers(AntiDiagCells);
        if c {
          boardClaimed := true;
        }
      }
    }

    /** Claims the board for the player holding all three cells, unless it is claimed already. */
    method CheckPlayers(cells: seq<int>) returns (boardClaimed: bool)
      requires IsLine(cells)
      modifies this`status
      ensures boardClaimed <==> old(status) == Unclaimed && Uniform(board, cells)
      ensures status == if boardClaimed then ClaimFor(board[cells[0]]) else old(status)
    {
      boardClaimed := false;
      if status == Unclaimed && board[cells[0]] == board[cells[1]] && board[cells[1]] == board[cells[2]] {
        if board[cells[0]] == X {
          status := XClaim;
        } else {
          status := OClaim;
        }
        boardClaimed := true;
      }
    }

    /** The claim status; on a valid board a claim is always backed by the claimant's line. */
    function GetClaimStatus(): (s: ClaimStatus)
      reads this
      ensures Valid() && s == XClaim ==> HasLine(board, X)
      ensures Valid() && s == OClaim ==> HasLine(board, O)
      ensures Valid() && s == Unclaimed ==> NoWinner(board)
    {
      status
    }

    /**
     * The marker in cell, with Python's list subscript (IndexError outside -9..8); an
     * empty cell of an unclaimed board is a valid move.
     */
    function GetCellContents(cell: int): (r: Result<Player>)
      reads this
      ensures r.Ok? <==> -9 <= cell < 9
      ensures IsCell(cell) ==> r == Ok(board[cell])
      ensures IsCell(cell) ==> (r == Ok(Empty) && status == Unclaimed <==> IsValidMove(cell))
    {
      match PyIndex(cell, 9)
      case IndexError => IndexError
      case Ok(c) => Ok(board[c])
    }
  }

  /** Three markers of one player along the top row claim a fresh board on the third placement, and not before. */
  method TopRowClaim() returns (first: bool, second: bool, third: bool)
    ensures !first && !second && third
  {
    var t := new TTTBoard();
    first := t.AddMarker(X, 0);
    second := t.AddMarker(X, 1);
    third := t.AddMarker(X, 2);
  }
}
