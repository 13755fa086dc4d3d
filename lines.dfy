/**
 * The lines of a 3x3 board and the incremental line counters a TTTBoard keeps, as pure
 * functions of the cell contents. Cells are indexed row-major:
 *   [ 0, 1, 2 ]
 *   [ 3, 4, 5 ]
 *   [ 6, 7, 8 ]
 */
module Lines {
  import opened Enums

  predicate IsCell(i: int) { 0 <= i < 9 }

  predicate IsBoard(b: seq<Player>) { |b| == 9 }

  /** The nine cells of a board. */
  type Cells = b: seq<Player> | IsBoard(b) witness seq(9, _ => Empty)

  /** The three row (or column) counters of a board. */
  type Counters = s: seq<int> | |s| == 3 witness [0, 0, 0]

  /** Three cell indices, as passed to check_players. */
  predicate IsLine(line: seq<int>)
  {
    |line| == 3 && IsCell(line[0]) && IsCell(line[1]) && IsCell(line[2])
  }

  function RowCells(r: int): (line: seq<int>)
    requires 0 <= r < 3
    ensures IsLine(line)
  {
    [3 * r, 3 * r + 1, 3 * r + 2]
  }

  function ColCells(c: int): (line: seq<int>)
    requires 0 <= c < 3
    ensures IsLine(line)
  {
    [c, c + 3, c + 6]
  }

  const DiagCells: seq<int> := [0, 4, 8]
  const AntiDiagCells: seq<int> := [2, 4, 6]

  /** add_marker's test for the main diagonal. */
  function OnDiag(cell: int): (b: bool)
    requires IsCell(cell)
    ensures b <==> cell in DiagCells
  {
    cell % 4 == 0
  }

  /** add_marker's test for the anti-diagonal. */
  function OnAntiDiag(cell: int): (b: bool)
    requires IsCell(cell)
    ensures b <==> cell in AntiDiagCells
  {
    cell % 2 == 0 && cell % 8 != 0
  }

  /** The eight lines: rows 0-2, columns 0-2, the main diagonal, the anti-diagonal. */
  function WinLine(k: int): (line: seq<int>)
    requires 0 <= k < 8
    ensures IsLine(line)
  {
    if k < 3 then RowCells(k)
    else if k < 6 then ColCells(k - 3)
    else if k == 6 then DiagCells
    else AntiDiagCells
  }

  function Mark(p: Player): nat { if p == Empty then 0 else 1 }

  /** How many cells of the line hold a marker. */
  function Filled(b: seq<Player>, line: seq<int>): nat
    requires IsBoard(b) && IsLine(line)
  {
    Mark(b[line[0]]) + Mark(b[line[1]]) + Mark(b[line[2]])
  }

  /** check_players' comparison: the three cells hold equal markers (possibly all Empty). */
  predicate Uniform(b: seq<Player>, line: seq<int>)
    requires IsBoard(b) && IsLine(line)
  {
    b[line[0]] == b[line[1]] && b[line[1]] == b[line[2]]
  }

  predicate Holds(b: seq<Player>, line: seq<int>, p: Player)
    requires IsBoard(b) && IsLine(line)
  {
    b[line[0]] == p && b[line[1]] == p && b[line[2]] == p
  }

  /** Player p has three in a row somewhere on the board. */
  predicate HasLine(b: seq<Player>, p: Player)
    requires IsBoard(b)
  {
    exists k :: 0 <= k < 8 && Holds(b, WinLine(k), p)
  }

  predicate NoWinner(b: seq<Player>)
    requires IsBoard(b)
  {
    !HasLine(b, X) && !HasLine(b, O)
  }

  /** The counters agree with the board: each counts the markers on its line. */
  predicate Tracks(b: seq<Player>, rows: seq<int>, cols: seq<int>, diag: int, odiag: int)
  {
    IsBoard(b) && |rows| == 3 && |cols| == 3 &&
    (forall r :: 0 <= r < 3 ==> rows[r] == Filled(b, RowCells(r))) &&
    (forall c :: 0 <= c < 3 ==> cols[c] == Filled(b, ColCells(c))) &&
    diag == Filled(b, DiagCells) && odiag == Filled(b, AntiDiagCells)
  }

  /**
   * The line check_claimed_cell settles on after a move in cell: the first of the cell's row,
   * the cell's column, the main diagonal and the anti-diagonal, in that order, whose counter
   * is 3 and whose cells hold equal markers.
   */
  function ClaimedLine(b: seq<Player>, rows: seq<int>, cols: seq<int>, diag: int, odiag: int, cell: int): Option<seq<int>>
    requires IsBoard(b) && |rows| == 3 && |cols| == 3 && IsCell(cell)
  {
    if rows[cell / 3] == 3 && Uniform(b, RowCells(cell / 3)) then Some(RowCells(cell / 3))
    else if cols[cell % 3] == 3 && Uniform(b, ColCells(cell % 3)) then Some(ColCells(cell % 3))
    else if diag == 3 && Uniform(b, DiagCells) then Some(DiagCells)
    else if odiag == 3 && Uniform(b, AntiDiagCells) then Some(AntiDiagCells)
    else None
  }

  /** One placement changes the count of a line by one exactly when the line goes through the cell. */
  lemma FilledAfterPlacement(b: seq<Player>, line: seq<int>, cell: int, p: Player)
    requires IsBoard(b) && IsLine(line) && IsCell(cell) && b[cell] == Empty && p != Empty
    requires line[0] != line[1] && line[1] != line[2] && line[0] != line[2]
    ensures Filled(b[cell := p], line) == Filled(b, line) + (if cell in line then 1 else 0)
  {
  }

  /**
   * add_marker's counter updates on an empty cell keep every counter equal to the number
   * of markers on its line.
   */
  lemma PlacementTracks(b: seq<Player>, rows: seq<int>, cols: seq<int>, diag: int, odiag: int, cell: int, p: Player)
    requires Tracks(b, rows, cols, diag, odiag)
    requires IsCell(cell) && b[cell] == Empty && p != Empty
    ensures Tracks(b[cell := p], rows[cell / 3 := rows[cell / 3] + 1], cols[cell % 3 := cols[cell % 3] + 1],
                   diag + (if OnDiag(cell) then 1 else 0), odiag + (if OnAntiDiag(cell) then 1 else 0))
  {
    var b' := b[cell := p];
    forall r | 0 <= r < 3
      ensures Filled(b', RowCells(r)) == Filled(b, RowCells(r)) + (if r == cell / 3 then 1 else 0)
    {
      FilledAfterPlacement(b, RowCells(r), cell, p);
    }
    forall c | 0 <= c < 3
      ensures Filled(b', ColCells(c)) == Filled(b, ColCells(c)) + (if c == cell % 3 then 1 else 0)
    {
      FilledAfterPlacement(b, ColCells(c), cell, p);
    }
    FilledAfterPlacement(b, DiagCells, cell, p);
    FilledAfterPlacement(b, AntiDiagCells, cell, p);
  }

  /** On a board nobody had won, a line completed by a placement goes through the cell and belongs to the placing player. */
  lemma NewLineThroughCell(b: seq<Player>, cell: int, p: Player, k: int, q: Player)
    requires IsBoard(b) && NoWinner(b) && IsCell(cell) && p != Empty
    requires 0 <= k < 8 && q != Empty && Holds(b[cell := p], WinLine(k), q)
    ensures cell in WinLine(k) && q == p
  {
  }

  /** A line check_claimed_cell settles on under tracking counters is one of the eight lines, full of one player's markers. */
  lemma ClaimedLineIsWon(b: seq<Player>, rows: seq<int>, cols: seq<int>, diag: int, odiag: int, cell: int)
    requires Tracks(b, rows, cols, diag, odiag) && IsCell(cell)
    requires ClaimedLine(b, rows, cols, diag, odiag, cell).Some?
    ensures var line := ClaimedLine(b, rows, cols, diag, odiag, cell).value;
            exists k :: 0 <= k < 8 && WinLine(k) == line && Holds(b, WinLine(k), b[line[0]]) && b[line[0]] != Empty
  {
    var line := ClaimedLine(b, rows, cols, diag, odiag, cell).value;
    var k := if line == RowCells(cell / 3) then cell / 3
             else if line == ColCells(cell % 3) then 3 + cell % 3
             else if line == DiagCells then 6
             else 7;
    assert WinLine(k) == line;
    assert Filled(b, line) == 3;
  }

  /** Under tracking counters, a full line through the cell is found by check_claimed_cell. */
  lemma WonLineIsClaimed(b: seq<Player>, rows: seq<int>, cols: seq<int>, diag: int, odiag: int, cell: int, k: int, q: Player)
    requires Tracks(b, rows, cols, diag, odiag) && IsCell(cell)
    requires 0 <= k < 8 && q != Empty && Holds(b, WinLine(k), q) && cell in WinLine(k)
    ensures ClaimedLine(b, rows, cols, diag, odiag, cell).Some?
  {
    assert Filled(b, WinLine(k)) == 3;
    if k < 3 {
      assert k == cell / 3;
    } else if k < 6 {
      assert k - 3 == cell % 3;
    }
  }

  /**
   * The claim rule: on a board whose counters track it and that nobody has won, placing p
   * in an empty cell makes check_claimed_cell find a line exactly when p now has three in a
   * row; the line found is p's, and no other player has a line.
   */
  lemma PlacementClaims(b: seq<Player>, rows: seq<int>, cols: seq<int>, diag: int, odiag: int, cell: int, p: Player)
    requires Tracks(b, rows, cols, diag, odiag) && NoWinner(b)
    requires IsCell(cell) && b[cell] == Empty && p != Empty
    ensures var b' := b[cell := p];
            var line := ClaimedLine(b', rows[cell / 3 := rows[cell / 3] + 1], cols[cell % 3 := cols[cell % 3] + 1],
                                    diag + (if OnDiag(cell) then 1 else 0), odiag + (if OnAntiDiag(cell) then 1 else 0), cell);
            (line.Some? <==> HasLine(b', p)) &&
            (line.Some? ==> b'[line.value[0]] == p) &&
            (forall q :: q != Empty && q != p ==> !HasLine(b', q))
  {
    var b' := b[cell := p];
    var rows', cols' := rows[cell / 3 := rows[cell / 3] + 1], cols[cell % 3 := cols[cell % 3] + 1];
    var diag', odiag' := diag + (if OnDiag(cell) then 1 else 0), odiag + (if OnAntiDiag(cell) then 1 else 0);
    PlacementTracks(b, rows, cols, diag, odiag, cell, p);
    var line := ClaimedLine(b', rows', cols', diag', odiag', cell);
    if line.Some? {
      ClaimedLineIsWon(b', rows', cols', diag', odiag', cell);
      var k :| 0 <= k < 8 && WinLine(k) == line.value && Holds(b', WinLine(k), b'[line.value[0]]) && b'[line.value[0]] != Empty;
      NewLineThroughCell(b, cell, p, k, b'[line.value[0]]);
    }
    if HasLine(b', p) {
      var k :| 0 <= k < 8 && Holds(b', WinLine(k), p);
      NewLineThroughCell(b, cell, p, k, p);
      WonLineIsClaimed(b', rows', cols', diag', odiag', cell, k, p);
    }
    forall q | q != Empty && q != p
      ensures !HasLine(b', q)
    {
      if HasLine(b', q) {
        var k :| 0 <= k < 8 && Holds(b', WinLine(k), q);
        NewLineThroughCell(b, cell, p, k, q);
      }
    }
  }

  /**
   * The invariant of a TTTBoard: the counters track the board, an unclaimed board has no
   * three in a row, and a claim is backed by the claimant's line.
   */
  predicate Consistent(b: seq<Player>, status: ClaimStatus, rows: seq<int>, cols: seq<int>, diag: int, odiag: int)
  {
    Tracks(b, rows, cols, diag, odiag) &&
    (status == Unclaimed ==> NoWinner(b)) &&
    (status != Unclaimed ==> HasLine(b, Owner(status)))
  }

  /** A placement in an empty cell keeps every line some player already holds. */
  lemma PlacementKeepsLine(b: seq<Player>, cell: int, p: Player, q: Player)
    requires IsBoard(b) && IsCell(cell) && b[cell] == Empty && q != Empty && HasLine(b, q)
    ensures HasLine(b[cell := p], q)
  {
    var k :| 0 <= k < 8 && Holds(b, WinLine(k), q);
    assert Holds(b[cell := p], WinLine(k), q);
  }

  /** The fields of a TTTBoard as a value: cells, claim status and the four kinds of counters. */
  datatype TTTState = TTTState(board: Cells, status: ClaimStatus, rows: Counters, cols: Counters, diag: int, odiag: int)

  predicate Good(t: TTTState)
  {
    Consistent(t.board, t.status, t.rows, t.cols, t.diag, t.odiag)
  }

  /** What a new TTTBoard holds: nine empty cells, no claim, every counter zero. */
  const Fresh: TTTState := TTTState(seq(9, _ => Empty), Unclaimed, [0, 0, 0], [0, 0, 0], 0, 0)

  /** A fresh board keeps the invariant, and every cell of it is open. */
  lemma FreshIsGood()
    ensures Good(Fresh)
    ensures forall c :: IsCell(c) ==> CanPlay(Fresh, c)
  {
  }

  /** is_valid_move: the board is unclaimed and the cell empty. */
  predicate CanPlay(t: TTTState, cell: int)
    requires IsCell(cell)
  {
    t.status == Unclaimed && t.board[cell] == Empty
  }

  /**
   * add_marker followed by check_claimed_cell: the cell gets the marker, the counters of its
   * lines go up by one, and the board is claimed with the first line ClaimedLine finds if it
   * was still unclaimed. The flag says whether this call claimed the board.
   */
  function Place(t: TTTState, cell: int, p: Player): (TTTState, bool)
    requires IsCell(cell)
  {
    var b := t.board[cell := p];
    var rows := t.rows[cell / 3 := t.rows[cell / 3] + 1];
    var cols := t.cols[cell % 3 := t.cols[cell % 3] + 1];
    var diag := t.diag + (if OnDiag(cell) then 1 else 0);
    var odiag := t.odiag + (if OnAntiDiag(cell) then 1 else 0);
    var line := ClaimedLine(b, rows, cols, diag, odiag, cell);
    var claimed := t.status == Unclaimed && line.Some?;
    (TTTState(b, if claimed then ClaimFor(b[line.value[0]]) else t.status, rows, cols, diag, odiag), claimed)
  }

  /** A board on which X holds the top row and nothing else. */
  const XTopRow: TTTState := TTTState([X, X, X, Empty, Empty, Empty, Empty, Empty, Empty], XClaim, [3, 0, 0], [1, 1, 1], 1, 1)

  /** X placing in cells 0, 1 and 2 of a fresh board claims it with the third placement and not before. */
  lemma TopRowPlacements()
    ensures !Place(Fresh, 0, X).1
    ensures !Place(Place(Fresh, 0, X).0, 1, X).1
    ensures Place(Place(Place(Fresh, 0, X).0, 1, X).0, 2, X) == (XTopRow, true)
  {
    PlaceTopLeft();
    PlaceTopMiddle();
    PlaceTopRight();
  }

  /** X's marker in cell 0 of a fresh board. */
  const XTopLeft: TTTState := TTTState([X, Empty, Empty, Empty, Empty, Empty, Empty, Empty, Empty], Unclaimed, [1, 0, 0], [1, 0, 0], 1, 0)

  /** X's markers in cells 0 and 1 of a fresh board. */
  const XTopPair: TTTState := TTTState([X, X, Empty, Empty, Empty, Empty, Empty, Empty, Empty], Unclaimed, [2, 0, 0], [1, 1, 0], 1, 0)

  lemma PlaceTopLeft()
    ensures Place(Fresh, 0, X) == (XTopLeft, false)
  {
    var r := Place(Fresh, 0, X);
    assert r.0.board == XTopLeft.board;
    assert r.0.rows == [1, 0, 0] && r.0.cols == [1, 0, 0];
    assert ClaimedLine(XTopLeft.board, [1, 0, 0], [1, 0, 0], 1, 0, 0) == None;
  }

  lemma PlaceTopMiddle()
    ensures Place(XTopLeft, 1, X) == (XTopPair, false)
  {
    var r := Place(XTopLeft, 1, X);
    assert r.0.board == XTopPair.board;
    assert r.0.rows == [2, 0, 0] && r.0.cols == [1, 1, 0];
    assert ClaimedLine(XTopPair.board, [2, 0, 0], [1, 1, 0], 1, 0, 1) == None;
  }

  lemma PlaceTopRight()
    ensures Place(XTopPair, 2, X) == (XTopRow, true)
  {
    assert ClaimedLine(XTopRow.board, [3, 0, 0], [1, 1, 1], 1, 1, 2) == Some(RowCells(0));
    var r := Place(XTopPair, 2, X);
    assert r.0.board == XTopRow.board;
    assert r.0.rows == [3, 0, 0] && r.0.cols == [1, 1, 1];
  }

  /**
   * A placement writes exactly its cell and adds one to the counter of each line through the
   * cell and to no other; it reports a claim exactly when it moved the board from unclaimed to
   * claimed, and a claimed board keeps its claim.
   */
  lemma PlaceEffects(t: TTTState, cell: int, p: Player)
    requires IsCell(cell)
    ensures var (t', claimed) := Place(t, cell, p);
            t'.board == t.board[cell := p] &&
            (forall r :: 0 <= r < 3 ==> t'.rows[r] == t.rows[r] + if cell in RowCells(r) then 1 else 0) &&
            (forall c :: 0 <= c < 3 ==> t'.cols[c] == t.cols[c] + if cell in ColCells(c) then 1 else 0) &&
            t'.diag == t.diag + (if cell in DiagCells then 1 else 0) &&
            t'.odiag == t.odiag + (if cell in AntiDiagCells then 1 else 0) &&
            (claimed <==> t.status == Unclaimed && t'.status != Unclaimed) &&
            (t.status != Unclaimed ==> t'.status == t.status)
  {
    forall r | 0 <= r < 3
      ensures cell in RowCells(r) <==> r == cell / 3
    {
    }
    forall c | 0 <= c < 3
      ensures cell in ColCells(c) <==> c == cell % 3
    {
    }
  }

  /**
   * A real player's move into an empty cell of a board that keeps the invariant keeps it; the
   * move claims the board exactly when the board was open and the mover now has three in a
   * row, and then it claims it for the mover.
   */
  lemma PlaceKeepsGood(t: TTTState, cell: int, p: Player)
    requires Good(t) && IsCell(cell) && t.board[cell] == Empty && p != Empty
    ensures Good(Place(t, cell, p).0)
    ensures Place(t, cell, p).1 <==> t.status == Unclaimed && HasLine(Place(t, cell, p).0.board, p)
    ensures Place(t, cell, p).1 ==> Place(t, cell, p).0.status == ClaimFor(p)
  {
    var r := Place(t, cell, p);
    PlaceKeepsConsistent(t.board, t.status, t.rows, t.cols, t.diag, t.odiag, cell, p, r.1,
                         r.0.board, r.0.status, r.0.rows, r.0.cols, r.0.diag, r.0.odiag);
  }

  /** PlaceKeepsGood's first clause for any move, as an implication from its conditions. */
  lemma GoodAfterLegalPlace(t: TTTState, cell: int, p: Player)
    requires IsCell(cell)
    ensures Good(t) && t.board[cell] == Empty && p != Empty ==> Good(Place(t, cell, p).0)
  {
    if Good(t) && t.board[cell] == Empty && p != Empty {
      PlaceKeepsGood(t, cell, p);
    }
  }

  /** The step of PlaceKeepsGood on the fields one by one, before and after. */
  lemma PlaceKeepsConsistent(b: seq<Player>, status: ClaimStatus, rows: seq<int>, cols: seq<int>, diag: int, odiag: int,
                             cell: int, p: Player, claimed: bool,
                             b': seq<Player>, status': ClaimStatus, rows': seq<int>, cols': seq<int>, diag': int, odiag': int)
    requires Consistent(b, status, rows, cols, diag, odiag)
    requires IsCell(cell) && b[cell] == Empty && p != Empty
    requires b' == b[cell := p]
    requires rows' == rows[cell / 3 := rows[cell / 3] + 1] && cols' == cols[cell % 3 := cols[cell % 3] + 1]
    requires diag' == diag + (if OnDiag(cell) then 1 else 0) && odiag' == odiag + (if OnAntiDiag(cell) then 1 else 0)
    requires claimed <==> status == Unclaimed && ClaimedLine(b', rows', cols', diag', odiag', cell).Some?
    requires status' == if claimed then ClaimFor(b'[ClaimedLine(b', rows', cols', diag', odiag', cell).value[0]]) else status
    ensures Consistent(b', status', rows', cols', diag', odiag')
    ensures claimed <==> status == Unclaimed && HasLine(b', p)
    ensures claimed ==> status' == ClaimFor(p)
  {
    PlacementTracks(b, rows, cols, diag, odiag, cell, p);
    if status == Unclaimed {
      PlacementClaims(b, rows, cols, diag, odiag, cell, p);
    } else {
      PlacementKeepsLine(b, cell, p, Owner(status));
    }
  }
}
