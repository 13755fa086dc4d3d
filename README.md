# Ultimate Tic-Tac-Toe engine, modelled in Dafny

This project models the game-state engine of an Ultimate Tic-Tac-Toe program
(`src/model/UTTTBoard.py`) and its earlier revision (`src/model/UTTT_Board.py`), and proves
properties of both.

- `TTTBoard` is one 3x3 board. It keeps nine cells, a claim status and incremental line
  counters: one per row, one per column, one per diagonal.
  - `add_marker` writes a cell and bumps the counters of the lines through it.
  - `check_claimed_cell` and `check_players` then look for a full line of equal markers.
- `UTTTBoard` owns nine such boards and a tenth one, the claim board.
  - `make_move` validates a move and plays it on its square.
  - When the move newly claims the square, the same player is played on the claim board at
    the square's index. When that claims the claim board, the game is won.
  - Every attempted move is reported to the registered observers.
- `__str__` renders the 81 cells as a 9x9 grid.

Files and modules:

| file | module | what it holds |
|---|---|---|
| `enums.dfy` | `Enums` | `Players`, `ClaimStatus`, `GameStatus`; `Option` (Python's `None` or a value) and `Result` (a value or a raised IndexError); Python's list subscript (`PyIndex`) |
| `observers.dfy` | `Observers` | the notification trace that stands in for `observer.update` calls |
| `lines.dfy` | `Lines` | the eight lines, the counters, the claim check, and one board as a value (`TTTState`, `Place`) with its invariant `Good` |
| `ttt_board.dfy` | `SubBoard` | class `TTTBoard`; each method is proved to do what `Place` says |
| `game.dfy` | `Game` | the whole game as a value (`UTTTState`) and `make_move` as the function `Move`, with the rules of the game proved about it |
| `uttt_board.dfy` | `MetaBoard` | class `UTTTBoard`; a ghost `model` is tied to the fields, and `MakeMove` is proved to follow `Move` |
| `render.dfy` | `Render` | the index map of `__str__` and the text it builds |
| `legacy_board.dfy` | `Legacy` | the earlier revision as written: its value model (`OldPlace`), its two classes, and the counterexamples listed under Findings |

Design:

- State that the source changes in place is kept in classes with the source's fields.
  - The later revision's Python lists are `seq` fields that the methods reassign.
  - The earlier revision's numpy cell array is a Dafny `array`, which `Make_Move` writes into.
- Each state-changing method is proved against a function on values.
  - `TTTBoard.AddMarker` ensures `(State(), claimed) == Place(old(State()), cell, player)`.
  - `UTTTBoard.MakeMove` ensures `(model, gameWin) == Move(old(model), square, cell, player)`.
- The rules of the game are lemmas about `Place` and `Move`. Examples:
  - the counters track the board;
  - a claim happens exactly when the mover completes a line;
  - cell s of the claim board always holds the owner of square s;
  - the game status is the claim board's claim.

Behaviour of the code that the model keeps as written:

- The claim check compares the three cells of a line for equality. A line of X's markers claims
  `X_CLAIM`; any other line of equal markers claims `O_CLAIM`, as `check_players` does
  (`src/model/UTTTBoard.py:111-117`).
- `make_move` accepts `Players.NONE` as the player. The invariant lemmas about a move
  (`Game.MoveKeepsValid` and its parts) are stated for a real player, X or O.
- An invalid move sends "Invalid Move." once to each registered observer, in registration order.
- `make_move` plays moves after the game is won. Such a move can claim more squares and mark
  the claim board. It never changes the game status again or reports a win, whoever plays it
  (`Game.MoveKeepsOverWhenClaimed`, `Game.GameOverIsFinal`, `Game.PlayedGameOverIsFinal`).

## Model

| member | source | states |
|---|---|---|
| Enums.Display | src/model/UTTTBoard.py:10-12 | a marker is drawn as its enum value: `_` exactly for NONE, otherwise `X` or `O` |
| Enums.ClaimFor | src/model/UTTTBoard.py:114-117 | a line of X's markers claims X_CLAIM, any other line O_CLAIM; never NONE |
| Enums.GameFor | src/model/UTTTBoard.py:182-186 | the game is NOT_OVER exactly while the claim board is unclaimed, X_WIN exactly when X claimed it, never STALEMATE |
| Enums.PyIndex | src/model/UTTTBoard.py:213 | Python's subscript on a list of 9: indices -9..8 reach an element (negatives from the end), all others raise IndexError |
| Observers.Broadcast | src/model/UTTTBoard.py:161-168 | the update calls notify_observers (and Notify_Observers of the earlier revision, src/model/UTTT_Board.py:94-97) makes for n observers: one per index 0..n-1, in registration order, all with the same message (no ensures; Observers.BroadcastInOrder states its contents) |
| Observers.BroadcastInOrder | src/model/UTTTBoard.py:161-168 | notify_observers calls update once for each registered observer, in registration order, all with the same message |
| Lines.OnDiag | src/model/UTTTBoard.py:71-72 | the test `cell % 4 == 0` picks exactly the cells 0, 4, 8 of the main diagonal |
| Lines.OnAntiDiag | src/model/UTTTBoard.py:73-74 | the test `cell % 2 == 0 and cell % 8 != 0` picks exactly the cells 2, 4, 6 of the anti-diagonal |
| Lines.CanPlay | src/model/UTTTBoard.py:57 | is_valid_move's test: the board is unclaimed and the cell holds NONE (no ensures; SubBoard.TTTBoard.IsValidMove and Lines.FreshIsGood state its consequences) |
| Lines.ClaimedLine | src/model/UTTTBoard.py:84-101 | the line check_claimed_cell settles on: the cell's row, then its column, then the main diagonal, then the anti-diagonal, the first whose counter is 3 and whose cells are equal (no ensures; Lines.ClaimedLineIsWon and Lines.WonLineIsClaimed prove what it finds) |
| Lines.Place | src/model/UTTTBoard.py:59-119 | add_marker on the values: the cell gets the marker, the counters of its lines go up by one, and an unclaimed board takes the claim of the line ClaimedLine finds; the flag says whether this call claimed the board (no ensures; Lines.PlaceEffects and Lines.PlaceKeepsGood prove its properties) |
| Lines.PlacementTracks | src/model/UTTTBoard.py:68-74 | when a real player is placed in an empty cell, the counter updates keep every counter equal to the number of markers on its line |
| Lines.ClaimedLineIsWon | src/model/UTTTBoard.py:84-101 | when the counters track the board, a line the claim check accepts is one of the eight lines, holding three equal non-NONE markers |
| Lines.WonLineIsClaimed | src/model/UTTTBoard.py:84-101 | when the counters track the board, a full line of one player through the last cell is always found by the claim check |
| Lines.PlacementClaims | src/model/UTTTBoard.py:77-119 | on an unwon board, the claim check finds a line exactly when the mover now has three in a row; the line is the mover's, and no other player has one |
| Lines.PlacementKeepsLine | src/model/UTTTBoard.py:68 | writing into an empty cell keeps every line a player already holds |
| Lines.FreshIsGood | src/model/UTTTBoard.py:43-57 | a new board keeps the invariant, and every cell 0..8 is a valid move on it |
| Lines.PlaceEffects | src/model/UTTTBoard.py:59-75 | add_marker writes exactly its cell and bumps the row, column, diagonal and anti-diagonal counters of the cell's lines and no others; it returns true exactly when the board went from unclaimed to claimed; a claimed board keeps its claim |
| Lines.PlaceKeepsGood | src/model/UTTTBoard.py:59-119 | a real player's move into an empty cell keeps the board invariant; it claims the board exactly when the board was open and the mover completed a line, and then the claim is the mover's |
| Lines.TopRowPlacements | src/model/UTTTBoard.py:59-101 | one player placing in cells 0, 1, 2 of a fresh board gets false, false, then true, and the board is claimed for X with only that row filled |
| SubBoard.TTTBoard.constructor | src/model/UTTTBoard.py:43-49 | nine NONE cells, status NONE, all counters 0; the invariant holds and every cell is a valid move |
| SubBoard.TTTBoard.IsValidMove | src/model/UTTTBoard.py:51-57 | true exactly when the board is unclaimed and the cell is NONE; always false on a claimed board; a valid move implies that nobody has a line yet |
| SubBoard.TTTBoard.AddMarker | src/model/UTTTBoard.py:59-75 | the new fields and the returned flag are exactly `Place` of the old fields; a real player's move into an empty cell of a valid board leaves it valid |
| SubBoard.TTTBoard.CheckClaimedCell | src/model/UTTTBoard.py:77-101 | returns true exactly when the board was unclaimed and one of the cell's row, its column, the diagonal or the anti-diagonal, tried in that order, has counter 3 and equal markers; the status then becomes that line's claim, and otherwise it is unchanged |
| SubBoard.TTTBoard.CheckPlayers | src/model/UTTTBoard.py:103-119 | claims the board only when it is unclaimed and the three cells are equal, for X if they hold X and for O otherwise; otherwise it changes nothing |
| SubBoard.TTTBoard.GetClaimStatus | src/model/UTTTBoard.py:121-125 | callable on any board; when the board is valid, a claim for X or O is backed by that player's line, and an unclaimed board has no line |
| SubBoard.TTTBoard.GetCellContents | src/model/UTTTBoard.py:127-133 | Python's subscript: indices -9..8 return a marker (negatives from the end) and the others raise IndexError; for cells 0..8 the marker is that cell's, and it is NONE on an unclaimed board exactly when the cell is a valid move |
| SubBoard.TopRowClaim | src/model/UTTTBoard.py:59-101 | on a new board, add_marker for X in 0, 1, 2 returns false, false, true |
| Game.ValidMove | src/model/UTTTBoard.py:194-204 | make_move's check on the values: square and cell are in 0..8 and the square's board is unclaimed with that cell NONE (no ensures; MetaBoard.UTTTBoard.IsValidMove is proved equal to it) |
| Game.Move | src/model/UTTTBoard.py:170-192 | make_move on the values; its ensures keeps the game's shape (nine squares of nine cells, three-counter rows and columns), and Game.MoveEffects and Game.MoveKeepsValid prove what it does |
| Game.InitialIsValid | src/model/UTTTBoard.py:146-151 | a new game keeps the game invariant, and every square and cell 0..8 is a valid move |
| Game.MoveEffects | src/model/UTTTBoard.py:170-192 | an invalid move changes nothing and returns false; a valid one writes its cell and leaves the other squares alone; the claim board is played, at the square and for the mover, only when the move newly claims its square; the move returns true exactly when the claim board leaves unclaimed, and the game status then becomes the mover's win |
| Game.MoveKeepsClaims | src/model/UTTTBoard.py:170-192 | a claimed square, a marked cell and a claimed claim board stay as they are, whatever the move |
| Game.ClaimTargetsEmptyCell | src/model/UTTTBoard.py:181-182 | in a valid game, the claim-board cell a valid move may write is still empty |
| Game.MoveKeepsSquaresGood | src/model/UTTTBoard.py:180-181 | a real player's move keeps every square's board invariant, and claims its square exactly when it completes the mover's line there |
| Game.MoveKeepsClaimBoardGood | src/model/UTTTBoard.py:182-188 | a real player's move keeps the claim board's invariant; it returns true exactly when the game was not over and the mover now holds a line of the claim board |
| Game.MoveKeepsClaimsMirrored | src/model/UTTTBoard.py:181-182 | after a real player's move, cell s of the claim board still holds the owner of square s, for every s |
| Game.MoveKeepsValid | src/model/UTTTBoard.py:170-192 | a real player's move keeps the whole game invariant; make_move returns true exactly when the game was open and the claim board now holds the mover's line, and the game is then won by the mover |
| Game.GameOverIsFinal | src/model/UTTTBoard.py:179-192 | once the claim board is claimed, no move of any player (Players.NONE included) changes the game status or returns true |
| Game.MoveKeepsOverWhenClaimed | src/model/UTTTBoard.py:179-192 | every move of any player keeps the game NOT_OVER exactly while the claim board is unclaimed |
| Game.ReplayKeepsOverWhenClaimed | src/model/UTTTBoard.py:146-192 | in every game played from a new board, by any players, the game is NOT_OVER exactly while the claim board is unclaimed |
| Game.PlayedGameOverIsFinal | src/model/UTTTBoard.py:179-192 | in every game played from a new board, by any players, once the game is over no further move changes its status or returns true |
| Game.TakeTopRow | src/model/UTTTBoard.py:180-188 | X playing cells 0, 1, 2 of a fresh square claims it on the third move and not before, touches no other square, and then plays that square on the claim board |
| Game.OpeningMove | src/model/UTTTBoard.py:170-204 | X's first move in cell 0 of square 0 returns false, leaves only that cell marked, and that cell is then no longer a valid move |
| Game.TopRowsWinGame | src/model/UTTTBoard.py:179-192 | from a new game, X taking the top rows of squares 0, 1 and 2 leaves the game open after eight moves; the ninth move wins it for X and make_move returns true |
| MetaBoard.UTTTBoard.constructor | src/model/UTTTBoard.py:146-151 | nine fresh distinct squares and a fresh claim board, all owned by the new object (its footprint is fresh), no observers, game NOT_OVER; the game invariant holds and every move 0..8 is valid |
| MetaBoard.UTTTBoard.InitialBoardIsValid | src/model/UTTTBoard.py:146-151 | a board whose fields are a new game keeps the game invariant, and every move in it is valid |
| MetaBoard.UTTTBoard.AddObserver | src/model/UTTTBoard.py:153-159 | the observer is appended at the end of the list |
| MetaBoard.UTTTBoard.NotifyObservers | src/model/UTTTBoard.py:161-168 | the trace grows by one update per observer, in registration order, with the given message |
| MetaBoard.UTTTBoard.MakeMove | src/model/UTTTBoard.py:170-192 | the new model and the result are exactly `Move` of the old model; the observers are told once each, with None after a valid move and with "Invalid Move." after an invalid one |
| MetaBoard.UTTTBoard.IsValidMove | src/model/UTTTBoard.py:194-204 | false whenever square or cell is outside 0..8, on any board; otherwise the square's own answer; equal to `ValidMove` of the model |
| MetaBoard.UTTTBoard.GetContent | src/model/UTTTBoard.py:206-213 | reads the cell with Python's subscripts: indices -9..8 succeed (negatives from the end), others raise IndexError |
| MetaBoard.UTTTBoard.ToString | src/model/UTTTBoard.py:215-225 | the loop builds exactly the text `Rendering` describes for the nine squares' cells |
| MetaBoard.NewWithTwoObservers | src/model/UTTTBoard.py:146-159 | a new board with two observers registered in order is the new game, and nobody has been told anything |
| MetaBoard.OpenWithTwoObservers | src/model/UTTTBoard.py:161-192 | X's opening move on it returns false, the board becomes the game after that move, and both observers are told None, in order |
| MetaBoard.RefuseTakenAndOutside | src/model/UTTTBoard.py:170-204 | after that, O's move into the taken cell and a move into square 9 both return false, change nothing, and are each told to both observers as "Invalid Move." |
| MetaBoard.ObserversSeeEveryMove | src/model/UTTTBoard.py:146-213 | the three moves return false, cell 0 of square 0 still holds X, and the observers see None, then "Invalid Move." twice, each message to observer 1 and then observer 2 |
| Render.SquareAt | src/model/UTTTBoard.py:217-218 | every position 0..80 is drawn from a square 0..8 |
| Render.CellAt | src/model/UTTTBoard.py:219 | every position 0..80 is drawn from a cell 0..8 |
| Render.IndexMapGeometry | src/model/UTTTBoard.py:217-220 | the grid row of position i is 3·(square row) + (cell row), and its grid column 3·(square column) + (cell column) |
| Render.IndexThenPosition | src/model/UTTTBoard.py:217-220 | each position shows the (square, cell) pair that belongs at that grid position |
| Render.PositionThenIndex | src/model/UTTTBoard.py:217-220 | each (square, cell) pair is drawn at exactly one position, so all 81 cells appear |
| Render.Appended | src/model/UTTTBoard.py:220-224 | one loop step of to_string: the separator row before positions 27 and 54, a newline before positions 0, 9, 18, …, "\|\| " between squares, then the cell's character and a space (no ensures; Render.AppendedExtends and Render.PositionShown state its effect) |
| Render.RenderUpTo | src/model/UTTTBoard.py:220-224 | the text after the first n loop steps (no ensures; Render.RenderPrefix proves it only grows) |
| Render.Rendering | src/model/UTTTBoard.py:215-225 | the whole text after 81 steps (no ensures; Render.CellShown proves every cell appears in it) |
| Render.AppendedExtends | src/model/UTTTBoard.py:221-224 | each loop step only appends to the text |
| Render.RenderPrefix | src/model/UTTTBoard.py:220-224 | the text after m steps begins the text after any later step |
| Render.PositionShown | src/model/UTTTBoard.py:224 | the character written for position i stays in the final text, as the enum value of its cell's marker |
| Render.CellShown | src/model/UTTTBoard.py:215-225 | every cell of every square appears in the text as its marker's character |
| Legacy.RowList | src/model/UTTT_Board.py:55 | the list Check_Claimed passes for the row counter: it starts at the row number, not at the row's first cell; it is always three indices 0..8 |
| Legacy.ColList | src/model/UTTT_Board.py:57 | the list Check_Claimed passes for the column counter: its third index repeats the second; it is always three indices 0..8 |
| Legacy.Checked | src/model/UTTT_Board.py:63-69 | Check_Players on the values: a NONE status whose three listed cells are equal takes the first cell's value; any other status stays (no ensures; Legacy.CheckedIsFinal states both directions) |
| Legacy.Claimed | src/model/UTTT_Board.py:52-61 | Check_Claimed on the values: four independent tests in the order row, column, DiagContainer, ODiagContainer, with the lists as written, including DiagList [2, 4, 6] for the counter of cells 0, 4, 8 and ODiagList [0, 4, 8] for the counter of cells 2, 4, 6 (no ensures; Legacy.CheckClaimedRule states its result) |
| Legacy.OldPlace | src/model/UTTT_Board.py:41-50 | Add_Marker on the values: writes the cell, bumps the counters of its lines, then runs Check_Claimed (no ensures; Legacy.OldPlaceEffects and Legacy.PlacementsAgree state its effect) |
| Legacy.CheckedIsFinal | src/model/UTTT_Board.py:63-69 | Check_Players never overwrites a status other than NONE; it replaces NONE exactly when the three listed cells are equal, and then by the value they hold |
| Legacy.CheckClaimedRule | src/model/UTTT_Board.py:52-61 | on an unclaimed board, Check_Claimed stores the value of the first test that goes through (counter 3 and equal cells), in the order row, column, DiagContainer, ODiagContainer, each with its list as written; a board that is not unclaimed keeps its status |
| Legacy.OldPlaceEffects | src/model/UTTT_Board.py:41-50 | Add_Marker writes exactly its cell and bumps the counters of the cell's lines and no others; a board whose status is not NONE keeps it |
| Legacy.PlacementsAgree | src/model/UTTT_Board.py:41-49 | from the same cells and counters, Add_Marker and the later add_marker leave the same cells and counters |
| Legacy.MiddleRowNotClaimed | src/model/UTTT_Board.py:54-55 | X in 3, 4, 5 of a fresh board leaves it unclaimed |
| Legacy.MixedColumnClaimed | src/model/UTTT_Board.py:56-57 | X in 0 and 3 and then O in 6 claims the board for X |
| Legacy.DiagonalNotClaimed | src/model/UTTT_Board.py:58-61 | X in 0, 4, 8 of a fresh board leaves it unclaimed |
| Legacy.EmptyRowLocksBoard | src/model/UTTT_Board.py:63-69 | X in 6, O in 7, X in 8 set the status to the NONE marker, which is not Claim_Status.NONE |
| Legacy.TTTBoard.constructor | src/model/UTTT_Board.py:27-33 | nine NONE cells in a fresh array, status NONE, counters 0; every cell 0..8 is a valid move |
| Legacy.TTTBoard.IsValidMove | src/model/UTTT_Board.py:35-39 | false on a board whose status is not NONE; otherwise raises IndexError exactly for indices outside -9..8; for cells 0..8, true exactly when the status is NONE and the cell is NONE |
| Legacy.TTTBoard.AddMarker | src/model/UTTT_Board.py:41-50 | the new fields are exactly `OldPlace` of the old ones |
| Legacy.TTTBoard.CheckClaimed | src/model/UTTT_Board.py:52-61 | the new status is `Claimed` of the old fields: four independent tests with the lists as written |
| Legacy.TTTBoard.CheckPlayers | src/model/UTTT_Board.py:63-69 | the loop over the list stores the first cell's value as the status exactly when the status was NONE and all three cells are equal |
| Legacy.TTTBoard.GetCellContents | src/model/UTTT_Board.py:71-72 | numpy's subscript: indices -9..8 succeed, and the others raise IndexError |
| Legacy.UTTTBoard.constructor | src/model/UTTT_Board.py:82-88 | nine sub-boards, each with nine NONE cells in its own fresh array, status NONE and counters 0; no observers, game NOT_OVER |
| Legacy.UTTTBoard.AddObserver | src/model/UTTT_Board.py:90-92 | the observer is appended at the end of the list |
| Legacy.UTTTBoard.NotifyObservers | src/model/UTTT_Board.py:94-97 | the trace grows by one update per observer, in registration order, with the given string |
| Legacy.UTTTBoard.IsValidMove | src/model/UTTT_Board.py:106-110 | false for a square outside 0..8 or a cell outside 0..9; cell 9 raises IndexError on an unclaimed square; true exactly for an empty cell 0..8 of an unclaimed square |
| Legacy.UTTTBoard.MakeMove | src/model/UTTT_Board.py:99-104 | an IndexError from the check propagates before anything changes; a valid move writes only its cell, with no counter, status, game-status change or notification; an invalid move tells each observer "Invalid Move." and changes nothing |
| Legacy.UTTTBoard.GetContent | src/model/UTTT_Board.py:112-113 | Python's and numpy's subscripts: indices -9..8 succeed, and the others raise IndexError |
| Legacy.NinthCellRaises | src/model/UTTT_Board.py:106-110 | on a new board, checking cell 9 of square 0 raises IndexError |
| Legacy.TopRowNeverClaimed | src/model/UTTT_Board.py:99-104 | on a new board, X playing cells 0, 1, 2 of square 0 fills the row, yet the square stays unclaimed and the game NOT_OVER |

## Left out

- SubBoard.TTTBoard.IsValidMove: takes a cell in 0..8 only. Python's negative indices on the cell list are not modelled at this layer. The only caller, `UTTTBoard.is_valid_move`, checks the bounds first.
- SubBoard.TTTBoard.AddMarker: takes a cell in 0..8 only, for the same reason. The source documents that its caller has validated the move.
- Legacy.TTTBoard.AddMarker: takes a cell in 0..8 only. Nothing in that revision calls it.
- MetaBoard.UTTTBoard.MakeMove: its contract states the new state as `Move` of the old state. That a real player's move keeps the game invariant is proved about `Move`, by `Game.MoveKeepsValid`, not as a clause of `MakeMove` itself.
- Game.MoveKeepsValid: holds for a real player (X or O) only. `make_move` also accepts `Players.NONE`, which fills counters without markers.
- Stalemate: no operation of either revision sets `STALEMATE`, so the model has no such transition.
- `src/PTUI/UTTTptui.py`, the terminal controller: it handles input and output, turn alternation and the next-square rule. It is not part of this model.
- `src/model/Observer.py` and observers' `update` bodies: these are foreign code. Each call is recorded as a `Notification(observer index, message)` in a ghost trace.
- The numpy construction of the index tables in `__str__` is replaced by the arithmetic index map in `Render`.
- The earlier `To_String`: it prints straight to the console, so it is not modelled.
- The numeric values of the `GameStatus` and `ClaimStatus` enums: no operation uses them.

## Findings

| source | as written | input that shows it | evidently intended | confidence | as-written member | corrected member |
|---|---|---|---|---|---|---|
| src/model/UTTT_Board.py:55 | the row test checks cells `[cell//3, cell//3+1, cell//3+2]` | X in cells 3, 4, 5 of a fresh board: cells 1, 2, 3 are checked and the board stays unclaimed | the row's own cells `3*(cell//3)` to `3*(cell//3)+2`, as the later revision checks | high, not executed | Legacy.MiddleRowNotClaimed | Lines.PlaceKeepsGood |
| src/model/UTTT_Board.py:57 | the column test checks cells `[c, c+3, c+3]` | X in 0, X in 3, then O in 6: cells 0, 3, 3 are checked and O's move claims the board for X | cells `[c, c+3, c+6]` | high, not executed | Legacy.MixedColumnClaimed | Lines.PlaceKeepsGood |
| src/model/UTTT_Board.py:58-61 | DiagContainer (cells 0, 4, 8) checks `[2,4,6]`, and ODiagContainer (cells 2, 4, 6) checks `[0,4,8]` | X in 0, 4, 8 of a fresh board: cells 2, 4, 6 are checked and the board stays unclaimed | each counter checks its own diagonal | high, not executed | Legacy.DiagonalNotClaimed | Lines.PlaceKeepsGood |
| src/model/UTTT_Board.py:69 | status takes the marker the checked cells hold, NONE included | X in 6, O in 7, X in 8: cells 2, 3, 4 are all NONE, the status becomes the NONE marker, and the board takes no more moves | only a line of one real player's markers claims the board, for that player | high, not executed | Legacy.EmptyRowLocksBoard | SubBoard.TTTBoard.GetClaimStatus |
| src/model/UTTT_Board.py:107 | the bounds test rejects `cell > 9` | `Is_Valid_Move(0, 9)` on a new board raises IndexError | reject `cell > 8` and return false | high, not executed | Legacy.NinthCellRaises | MetaBoard.UTTTBoard.IsValidMove |
| src/model/UTTT_Board.py:102 | a valid move writes the cell array directly | X in cells 0, 1, 2 of square 0: the row is full but the square is never claimed | place the marker through Add_Marker, so the counters and the claim follow | medium, not executed | Legacy.TopRowNeverClaimed | Game.TakeTopRow |
