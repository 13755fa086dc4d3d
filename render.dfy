/**
 * The text dump of the whole board (UTTTBoard.__str__): the 81 cells are visited in reading
 * order of the 9x9 grid, and position i shows cell CellAt(i) of square SquareAt(i).
 */
module Render {
  import opened Enums
  import opened Lines

  /** The square drawn at position i: its block row is i / 27, its block column (i % 9) / 3. */
  function SquareAt(i: int): (s: int)
    requires 0 <= i < 81
    ensures IsCell(s)
  {
    3 * (i / 27) + (i % 9) / 3
  }

  /** The cell drawn at position i: its row inside the block is (i / 9) % 3, its column i % 3. */
  function CellAt(i: int): (c: int)
    requires 0 <= i < 81
    ensures IsCell(c)
  {
    3 * ((i / 9) % 3) + i % 3
  }

  /** The position of cell c of square s: grid row 3 * (s / 3) + c / 3, grid column 3 * (s % 3) + c % 3. */
  function PositionOf(s: int, c: int): (i: int)
    requires IsCell(s) && IsCell(c)
    ensures 0 <= i < 81
  {
    9 * (3 * (s / 3) + c / 3) + 3 * (s % 3) + c % 3
  }

  lemma DivMod3(x: int, q: int, r: int)
    requires 0 <= r < 3 && x == 3 * q + r
    ensures x / 3 == q && x % 3 == r
  {
  }

  lemma DivMod9(x: int, q: int, r: int)
    requires 0 <= r < 9 && x == 9 * q + r
    ensures x / 9 == q && x % 9 == r
  {
  }

  lemma DivMod27(x: int, q: int, r: int)
    requires 0 <= r < 27 && x == 27 * q + r
    ensures x / 27 == q && x % 27 == r
  {
  }

  /** The position with base-3 digits a b c d: block row a, row in block b, block column c, column in block d. */
  lemma AtDigits(i: int, a: int, b: int, c: int, d: int)
    requires 0 <= a < 3 && 0 <= b < 3 && 0 <= c < 3 && 0 <= d < 3
    requires i == 27 * a + 9 * b + 3 * c + d
    ensures 0 <= i < 81
    ensures SquareAt(i) == 3 * a + c && CellAt(i) == 3 * b + d
    ensures i / 9 == 3 * a + b && i % 9 == 3 * c + d
  {
    DivMod27(i, a, 9 * b + 3 * c + d);
    DivMod9(i, 3 * a + b, 3 * c + d);
    DivMod3(3 * a + b, a, b);
    DivMod3(3 * c + d, c, d);
    DivMod3(i, 9 * a + 3 * b + c, d);
  }

  /** Every position has base-3 digits. */
  lemma HasDigits(i: int)
    requires 0 <= i < 81
    ensures i == 27 * (i / 27) + 9 * ((i % 27) / 9) + 3 * ((i % 9) / 3) + i % 3
    ensures 0 <= i / 27 < 3 && 0 <= (i % 27) / 9 < 3 && 0 <= (i % 9) / 3 < 3
  {
    DivMod3(i % 9, (i % 9) / 3, i % 3);
  }

  /**
   * The index map puts every cell where the 3x3-of-3x3 layout wants it: the square picks the
   * block, the cell the place inside the block.
   */
  lemma IndexMapGeometry(i: int)
    requires 0 <= i < 81
    ensures i / 9 == 3 * (SquareAt(i) / 3) + CellAt(i) / 3
    ensures i % 9 == 3 * (SquareAt(i) % 3) + CellAt(i) % 3
  {
    HasDigits(i);
    var a, b, c, d := i / 27, (i % 27) / 9, (i % 9) / 3, i % 3;
    AtDigits(i, a, b, c, d);
    DivMod3(3 * a + c, a, c);
    DivMod3(3 * b + d, b, d);
  }

  /** Each position shows the cell that is placed there: the index map followed by PositionOf is the identity. */
  lemma IndexThenPosition(i: int)
    requires 0 <= i < 81
    ensures PositionOf(SquareAt(i), CellAt(i)) == i
  {
    HasDigits(i);
    var a, b, c, d := i / 27, (i % 27) / 9, (i % 9) / 3, i % 3;
    AtDigits(i, a, b, c, d);
    DivMod3(3 * a + c, a, c);
    DivMod3(3 * b + d, b, d);
  }

  /** Each (square, cell) pair is shown at its position: PositionOf followed by the index map is the identity. */
  lemma PositionThenIndex(s: int, c: int)
    requires IsCell(s) && IsCell(c)
    ensures SquareAt(PositionOf(s, c)) == s && CellAt(PositionOf(s, c)) == c
  {
    DivMod3(s, s / 3, s % 3);
    DivMod3(c, c / 3, c % 3);
    AtDigits(PositionOf(s, c), s / 3, c / 3, s % 3, c % 3);
  }

  const RowSeparator: string := "\n======================="

  /** Nine squares of nine cells each. */
  predicate IsGrid(g: seq<seq<Player>>)
  {
    |g| == 9 && forall s :: 0 <= s < 9 ==> |g[s]| == 9
  }

  /** The text after position i is appended to text: separators as the position needs them, then the cell's character and a space. */
  function Appended(g: seq<seq<Player>>, text: string, i: int): string
    requires IsGrid(g) && 0 <= i < 81
  {
    var separated := if i % 27 == 0 && i != 0 then text + RowSeparator else text;
    var lined := if i % 9 == 0 then separated + "\n" else separated;
    var barred := if i % 3 == 0 && i % 9 != 0 then lined + "|| " else lined;
    barred + [Display(g[SquareAt(i)][CellAt(i)]), ' ']
  }

  /** The text after the first n positions. */
  function RenderUpTo(g: seq<seq<Player>>, n: int): string
    requires IsGrid(g) && 0 <= n <= 81
  {
    if n == 0 then "" else Appended(g, RenderUpTo(g, n - 1), n - 1)
  }

  /** to_string's result: the text after all 81 positions. */
  function Rendering(g: seq<seq<Player>>): string
    requires IsGrid(g)
  {
    RenderUpTo(g, 81)
  }

  /** Each position only appends to the text before it. */
  lemma AppendedExtends(g: seq<seq<Player>>, text: string, i: int)
    requires IsGrid(g) && 0 <= i < 81
    ensures text <= Appended(g, text, i)
  {
  }

  /** Later positions only append: the text after m positions begins the text after n >= m positions. */
  lemma {:induction false} RenderPrefix(g: seq<seq<Player>>, m: int, n: int)
    requires IsGrid(g) && 0 <= m <= n <= 81
    ensures RenderUpTo(g, m) <= RenderUpTo(g, n)
  {
    if m < n {
      RenderPrefix(g, m, n - 1);
      AppendedExtends(g, RenderUpTo(g, n - 1), n - 1);
    }
  }

  /** Where the character of position i sits in the text: two places before the end of its chunk. */
  function Offset(g: seq<seq<Player>>, i: int): int
    requires IsGrid(g) && 0 <= i < 81
  {
    |RenderUpTo(g, i + 1)| - 2
  }

  /** The character of position i is the player in cell CellAt(i) of square SquareAt(i). */
  lemma PositionShown(g: seq<seq<Player>>, i: int)
    requires IsGrid(g) && 0 <= i < 81
    ensures 0 <= Offset(g, i) < |Rendering(g)| && Rendering(g)[Offset(g, i)] == Display(g[SquareAt(i)][CellAt(i)])
  {
    RenderPrefix(g, i + 1, 81);
  }

  /** Every cell of every square appears in the text, as its player's character. */
  lemma CellShown(g: seq<seq<Player>>, s: int, c: int)
    requires IsGrid(g) && IsCell(s) && IsCell(c)
    ensures 0 <= Offset(g, PositionOf(s, c)) < |Rendering(g)|
    ensures Rendering(g)[Offset(g, PositionOf(s, c))] == Display(g[s][c])
  {
    var i := PositionOf(s, c);
    PositionThenIndex(s, c);
    PositionShown(g, i);
  }
}
