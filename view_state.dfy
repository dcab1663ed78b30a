/**
 * The shared "current cell" of the NPC (src/game/view_state.py). The module global becomes an
 * object that the view writes and the movement planner reads; both hold the same object.
 */
module ViewState {
  import opened Cells

  class CurrentCell {
    var cell: Cell

    /** The module-level initial value `(0, 0)`. */
    constructor ()
      ensures cell == (0, 0)
    {
      cell := (0, 0);
    }

    /** Overwrites the previous value unconditionally. */
    method SetCurrentCell(cx: int, cy: int)
      modifies this
      ensures cell == (cx, cy)
    {
      cell := (cx, cy);
    }

    /** Returns the last value set, without side effects. */
    method GetCurrentCell() returns (c: Cell)
      ensures c == cell
    {
      c := cell;
    }
  }
}
