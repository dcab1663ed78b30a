/** The constants of src/game/config.py that the core depends on. */
module Config {

  /** Side of one grid cell, in pixels. */
  const TILE: int := 48

  /** World size, in cells. */
  const WORLD_W: int := 200
  const WORLD_H: int := 200

  /** The bakery zone, in cells, both bounds inclusive. */
  const BAKERY_X1: int := 50
  const BAKERY_Y1: int := 50
  const BAKERY_X2: int := 60
  const BAKERY_Y2: int := 60

  /** Seconds one unit step takes to animate. */
  const STEP_TIME: real := 0.12
}
