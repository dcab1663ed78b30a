/**
 * Pixel geometry of the grid (src/game/grid.py): the centre of a cell in pixels, and the clamp of
 * a pixel position to the world's extent. Pixels are `real`s; Python floats are not modelled.
 */
module Grid {
  import opened Config

  /** The world's extent in pixels along X and along Y. */
  const WORLD_PX_W: real := (WORLD_W * TILE) as real
  const WORLD_PX_H: real := (WORLD_H * TILE) as real

  /** `cell_to_center_px(cx, cy)`: the cell's corner plus half a tile on each axis. */
  function CellToCenterPx(cx: int, cy: int): (r: (real, real))
    ensures (cx * TILE) as real < r.0 < ((cx + 1) * TILE) as real
    ensures (cy * TILE) as real < r.1 < ((cy + 1) * TILE) as real
  {
    ((cx * TILE) as real + TILE as real / 2.0, (cy * TILE) as real + TILE as real / 2.0)
  }

  /** The cell a pixel coordinate falls in, on one axis. */
  function PxToCell(px: real): int
  {
    (px / TILE as real).Floor
  }

  /** The centre of a cell maps back to that cell. */
  lemma CenterBackToCell(cx: int, cy: int)
    ensures PxToCell(CellToCenterPx(cx, cy).0) == cx
    ensures PxToCell(CellToCenterPx(cx, cy).1) == cy
  {
    var r := CellToCenterPx(cx, cy);
    assert r.0 / TILE as real == cx as real + 0.5;
    assert r.1 / TILE as real == cy as real + 0.5;
  }

  /** Distinct cells have distinct centres. */
  lemma CellToCenterInjective(a: (int, int), b: (int, int))
    requires CellToCenterPx(a.0, a.1) == CellToCenterPx(b.0, b.1)
    ensures a == b
  {
    CenterBackToCell(a.0, a.1);
    CenterBackToCell(b.0, b.1);
  }

  /** The example of tests/test_grid_math.py: cell (10, 7) is centred at (504, 360). */
  lemma CellToCenterExample()
    ensures CellToCenterPx(10, 7) == (504.0, 360.0)
  {
  }

  /** `min(max(v, 0), hi)` on one axis. */
  function ClampAxis(v: real, hi: real): real
  {
    var m := if 0.0 > v then 0.0 else v;
    if hi < m then hi else m
  }

  /** `clamp_world_px(x, y)`: each coordinate clamped to `[0, WORLD_* * TILE]`. */
  function ClampWorldPx(x: real, y: real): (r: (real, real))
    ensures 0.0 <= r.0 <= WORLD_PX_W && 0.0 <= r.1 <= WORLD_PX_H
    ensures 0.0 <= x <= WORLD_PX_W ==> r.0 == x
    ensures 0.0 <= y <= WORLD_PX_H ==> r.1 == y
    ensures x < 0.0 ==> r.0 == 0.0
    ensures y < 0.0 ==> r.1 == 0.0
    ensures x > WORLD_PX_W ==> r.0 == WORLD_PX_W
    ensures y > WORLD_PX_H ==> r.1 == WORLD_PX_H
  {
    (ClampAxis(x, WORLD_PX_W), ClampAxis(y, WORLD_PX_H))
  }

  /** Clamping twice is clamping once. */
  lemma ClampIdempotent(x: real, y: real)
    ensures var r := ClampWorldPx(x, y); ClampWorldPx(r.0, r.1) == r
  {
  }

  /** Clamping never moves a point further from any in-world point: it picks the nearest in-range value. */
  lemma ClampNearest(x: real, y: real, px: real, py: real)
    requires 0.0 <= px <= WORLD_PX_W && 0.0 <= py <= WORLD_PX_H
    ensures var r := ClampWorldPx(x, y);
      (if r.0 >= x then r.0 - x else x - r.0) <= (if px >= x then px - x else x - px)
      && (if r.1 >= y then r.1 - y else y - r.1) <= (if py >= y then py - y else y - py)
  {
  }

  /** The centre of every cell inside the world is left alone by the clamp. */
  lemma WorldCentresUnclamped(cx: int, cy: int)
    requires 0 <= cx < WORLD_W && 0 <= cy < WORLD_H
    ensures var c := CellToCenterPx(cx, cy); ClampWorldPx(c.0, c.1) == c
  {
    var c := CellToCenterPx(cx, cy);
    assert (cx + 1) * TILE <= WORLD_W * TILE;
    assert (cy + 1) * TILE <= WORLD_H * TILE;
  }
}
