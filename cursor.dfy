/**
 * The cursor/scroll state machine of `updateCur` (source/main.c:150-169).
 *
 * `Step` reads the source's comparisons in unbounded integers; this is the
 * behaviour the browser uses. `StepAsWritten` keeps the source's C widths:
 * `selLine` and `scrollLine` are `uint8_t`, `numFilesInDir` is `uint64_t`, so
 * `numFilesInDir - 1` and `numFilesInDir - lineLimit` wrap when the count is
 * small and `selLine++` wraps at 256.
 */
module Cursor {

  /** Number of entries displayed at once (`lineLimit`). */
  const LineLimit: nat := 5

  /** Size of the `uint8_t` range of `selLine` and `scrollLine`. */
  const U8: nat := 0x100

  /** Size of the `uint64_t` range of `numFilesInDir`. */
  const U64: nat := 0x1_0000_0000_0000_0000

  /** The argument of `updateCur`: 0 for the up key, 1 for the down key. */
  datatype Move = Up | Down

  /** The selected entry (`selLine`) and the topmost displayed entry (`scrollLine`). */
  datatype Pos = Pos(sel: nat, scroll: nat)

  /**
   * The window invariant over a listing of `count` entries: the selection is
   * displayed, lies inside the listing (or is 0 for an empty listing), and the
   * window never starts beyond the last full window.
   */
  predicate InWindow(c: Pos, count: nat) {
    && c.scroll <= c.sel < c.scroll + LineLimit
    && (c.sel < count || c.sel == 0)
    && (c.scroll == 0 || c.scroll + LineLimit <= count)
  }

  /** One `updateCur` step, with the comparisons read in unbounded integers. */
  function Step(m: Move, c: Pos, count: nat): (r: Pos)
    // at either end of the listing nothing moves
    ensures m == Up && c.sel == 0 ==> r == c
    ensures m == Down && c.sel + 1 >= count ==> r == c
    // otherwise the selection moves by exactly one
    ensures m == Up && c.sel > 0 ==> r.sel + 1 == c.sel
    ensures m == Down && c.sel + 1 < count ==> r.sel == c.sel + 1
    // the window moves by at most one, in the direction of the move
    ensures m == Up ==> r.scroll <= c.scroll <= r.scroll + 1
    ensures m == Down ==> c.scroll <= r.scroll <= c.scroll + 1
    // and Down never starts it beyond the last full window
    ensures m == Down && r.scroll != c.scroll ==> r.scroll + LineLimit <= count
    // the window invariant is preserved
    ensures InWindow(c, count) ==> InWindow(r, count)
    // and the window moves exactly when the selection would leave it
    ensures InWindow(c, count) ==>
      (r.scroll != c.scroll <==> r.sel < c.scroll || c.scroll + LineLimit <= r.sel)
  {
    match m
    case Up =>
      if c.sel != 0 then
        Pos(c.sel - 1, if c.scroll != 0 && c.sel == c.scroll then c.scroll - 1 else c.scroll)
      else
        c
    case Down =>
      if c.sel < count - 1 then
        var sel := c.sel + 1;
        Pos(sel, if c.scroll < count - LineLimit && sel == c.scroll + LineLimit then c.scroll + 1 else c.scroll)
      else
        c
  }

  /**
   * One `updateCur` step with the source's integer widths: the unsigned
   * subtractions wrap modulo 2^64 and `selLine++`, `scrollLine++` wrap
   * modulo 2^8; `scrollLine + lineLimit` is computed in `int` and does not wrap.
   */
  function StepAsWritten(m: Move, c: Pos, count: nat): (r: Pos)
    requires c.sel < U8 && c.scroll < U8 && count < U64
    ensures r.sel < U8 && r.scroll < U8
    ensures m == Up ==> r == Step(m, c, count)
  {
    match m
    case Up =>
      if c.sel != 0 then
        Pos(c.sel - 1, if c.scroll != 0 && c.sel == c.scroll then c.scroll - 1 else c.scroll)
      else
        c
    case Down =>
      if c.sel < (count - 1) % U64 then
        var sel := (c.sel + 1) % U8;
        Pos(sel, if c.scroll < (count - LineLimit) % U64 && sel == c.scroll + LineLimit
                    then (c.scroll + 1) % U8 else c.scroll)
      else
        c
  }

  /** For listings of at most 256 entries the 8-bit step is the unbounded one. */
  lemma AsWrittenAgrees(m: Move, c: Pos, count: nat)
    requires 0 < count <= U8
    requires InWindow(c, count)
    ensures c.sel < U8 && c.scroll < U8
    ensures StepAsWritten(m, c, count) == Step(m, c, count)
  {
  }

  /**
   * With more than 256 entries, Down at `selLine == 255` wraps the selection
   * to 0 while the window stays at 251: the selection leaves the window.
   */
  lemma SelectionWrapsAt256()
    ensures InWindow(Pos(255, 251), 257)
    ensures StepAsWritten(Down, Pos(255, 251), 257) == Pos(0, 251)
    ensures !InWindow(Pos(0, 251), 257)
    ensures Step(Down, Pos(255, 251), 257) == Pos(256, 252)
  {
  }

  /**
   * On an empty listing `numFilesInDir - 1` wraps, so Down still moves the
   * selection; read in unbounded integers it is a no-op.
   */
  lemma EmptyListingMovesSelection()
    ensures StepAsWritten(Down, Pos(0, 0), 0) == Pos(1, 0)
    ensures Step(Down, Pos(0, 0), 0) == Pos(0, 0)
  {
  }
}
