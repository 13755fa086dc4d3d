/** The enumerations of the game-state engine and the small value types shared by both revisions. */
module Enums {

  /** Players: the marker a cell holds; Empty is the enum's NONE member (an unplayed cell). */
  datatype Player = Empty | X | O

  /** ClaimStatus: whether a 3x3 board has been won, and by whom. */
  datatype ClaimStatus = Unclaimed | XClaim | OClaim

  /** GameStatus: the outcome of the whole game. Stalemate exists in the enum but no operation ever sets it. */
  datatype GameStatus = NotOver | XWin | OWin | Stalemate

  /** Python's None, or a value. */
  datatype Option<T> = None | Some(value: T)

  /** A query's outcome: its value, or the IndexError an out-of-range subscript raises. */
  datatype Result<T> = Ok(value: T) | IndexError

  /** The enum value of a Player, which is the character the board is drawn with. */
  function Display(p: Player): (ch: char)
    ensures ch == '_' <==> p == Empty
    ensures ch in "_XO"
  {
    match p
    case Empty => '_'
    case X => 'X'
    case O => 'O'
  }

  /** The claim check_players records for a line of equal markers: X's line claims for X, any other for O. */
  function ClaimFor(p: Player): (c: ClaimStatus)
    ensures c != Unclaimed
    ensures c == XClaim <==> p == X
  {
    if p == X then XClaim else OClaim
  }

  /** The marker the claim board holds for a square with this claim status. */
  function Owner(c: ClaimStatus): (p: Player)
    ensures p == Empty <==> c == Unclaimed
    ensures c != Unclaimed ==> ClaimFor(p) == c
  {
    match c
    case Unclaimed => Empty
    case XClaim => X
    case OClaim => O
  }

  /** The game status that goes with the claim status of the claim board. */
  function GameFor(c: ClaimStatus): (g: GameStatus)
    ensures g == NotOver <==> c == Unclaimed
    ensures g != Stalemate
    ensures g == XWin <==> c == XClaim
  {
    match c
    case Unclaimed => NotOver
    case XClaim => XWin
    case OClaim => OWin
  }

  /**
   * Python's subscript on a list or array of length n: indices 0..n-1 are read as they are,
   * -n..-1 count from the end, and anything else raises IndexError.
   */
  function PyIndex(i: int, n: nat): (r: Result<nat>)
    ensures r.Ok? <==> -(n as int) <= i < n
    ensures r.Ok? ==> r.value < n && r.value % n == i % n
    ensures 0 <= i < n ==> r == Ok(i)
  {
    if 0 <= i < n then Ok(i)
    else if -(n as int) <= i < 0 then Ok(i + n)
    else IndexError
  }
}
