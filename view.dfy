/**
 * Which entries `updateView` displays (source/main.c:179-205): the display
 * has `LineLimit` rows; the entries of the window come first, in index order,
 * the row of the selected entry carries the '>' marker, and blank rows pad
 * the rest. The escape sequences and colours are rendering and not modelled.
 */
module View {
  import opened Cursor

  /** One display row: an entry index with its marker, or padding. */
  datatype Row = Line(index: nat, marked: bool) | Blank

  /** How many entries of a `count`-entry listing a window starting at `scroll` shows. */
  function ShownCount(count: nat, scroll: nat): (k: nat)
    ensures k <= LineLimit
    ensures k == 0 || scroll + k <= count
    ensures k < LineLimit ==> count <= scroll + k
  {
    if count <= scroll then 0
    else if count - scroll < LineLimit then count - scroll
    else LineLimit
  }

  /** The rows of the display for a listing of `count` entries. */
  function Rows(count: nat, c: Pos): (rows: seq<Row>)
    ensures |rows| == LineLimit
    ensures forall i :: 0 <= i < LineLimit ==>
      rows[i] == if c.scroll + i < count then Line(c.scroll + i, c.scroll + i == c.sel) else Blank
    // under the window invariant the selected entry is shown, marked, on its own row
    ensures InWindow(c, count) && 0 < count ==> rows[c.sel - c.scroll] == Line(c.sel, true)
    ensures forall i :: 0 <= i < |rows| && rows[i].Line? && rows[i].marked ==> i == c.sel - c.scroll
  {
    var k := ShownCount(count, c.scroll);
    seq(k, j requires 0 <= j < k => Line(c.scroll + j, c.scroll + j == c.sel))
    + seq(LineLimit - k, _ => Blank)
  }
}
