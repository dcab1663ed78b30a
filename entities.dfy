/**
 * The grid walker (src/game/entities.py): an NPC sprite that moves one cell per step in the
 * four cardinal directions. Only its integer cell, its moving flag and its timer are modelled;
 * the pixel interpolation towards the target is not.
 */
module Entities {
  import opened Cells
  import opened Config

  /** `STEP_TIME - 1e-6`: the accumulated time at which a step is over. */
  const IDLE_THRESHOLD: real := STEP_TIME - 0.000001

  /** The walker's observable state: its cell, whether a step is in progress, and the step timer. */
  datatype WalkerState = WalkerState(cell: Cell, moving: bool, t: real)

  /** `step(dx, dy)`: a silent no-op unless the step is unit cardinal; otherwise move and start the timer. */
  function Stepped(w: WalkerState, dx: int, dy: int): (r: WalkerState)
    ensures !IsUnitStep(dx, dy) ==> r == w
    ensures IsUnitStep(dx, dy) ==> r.cell == Add(w.cell, (dx, dy)) && r.moving && r.t == 0.0
  {
    if Abs(dx) + Abs(dy) != 1 then w
    else WalkerState((w.cell.0 + dx, w.cell.1 + dy), true, 0.0)
  }

  /** `on_update(dt)`: idle walkers are untouched; a moving one accumulates `dt` and stops at the threshold. */
  function Updated(w: WalkerState, dt: real): (r: WalkerState)
    ensures r.cell == w.cell
    ensures !w.moving ==> r == w
    ensures w.moving ==> r.t == w.t + dt && (r.moving <==> w.t + dt < IDLE_THRESHOLD)
  {
    if !w.moving then w
    else
      var t := w.t + dt;
      if t >= IDLE_THRESHOLD then WalkerState(w.cell, false, t) else WalkerState(w.cell, true, t)
  }

  /** A step does not look at the moving flag: a step during motion re-targets from the new cell. */
  lemma StepIgnoresMotion(w: WalkerState, dx: int, dy: int)
    requires IsUnitStep(dx, dy)
    ensures Stepped(w, dx, dy) == Stepped(w.(moving := !w.moving, t := w.t + 1.0), dx, dy)
  {
  }

  /** `n` updates of `dt` in a row. */
  function UpdatedN(w: WalkerState, dt: real, n: nat): (r: WalkerState)
    ensures r.cell == w.cell
    ensures !w.moving ==> r == w
    ensures r.moving ==> w.moving
  {
    if n == 0 then w else Updated(UpdatedN(w, dt, n - 1), dt)
  }

  /** The timer after `n` updates of `dt` from zero: `dt` added `n` times. */
  function Elapsed(dt: real, n: nat): real
  {
    if n == 0 then 0.0 else Elapsed(dt, n - 1) + dt
  }

  lemma {:induction false} ElapsedIsProduct(dt: real, n: nat)
    ensures Elapsed(dt, n) == n as real * dt
  {
    if n > 0 {
      ElapsedIsProduct(dt, n - 1);
      assert (n - 1) as real * dt + dt == n as real * dt;
    }
  }

  /** With a positive frame time the timer strictly grows. */
  lemma {:induction false} ElapsedGrows(dt: real, i: nat, j: nat)
    requires dt > 0.0 && i < j
    ensures Elapsed(dt, i) < Elapsed(dt, j)
  {
    if i < j - 1 {
      ElapsedGrows(dt, i, j - 1);
    }
  }

  /** A step lasts exactly `k` updates of `dt`: the `k`-th update is the first to reach the threshold. */
  predicate TicksPerStep(dt: real, k: nat)
  {
    dt > 0.0 && k >= 1 && Elapsed(dt, k - 1) < IDLE_THRESHOLD <= Elapsed(dt, k)
  }

  /** Among the updates of one step, exactly the `k`-th and later ones are at or past the threshold. */
  lemma StillMovingBefore(dt: real, k: nat, j: nat)
    requires TicksPerStep(dt, k)
    ensures Elapsed(dt, j) < IDLE_THRESHOLD <==> j < k
  {
    if j < k - 1 {
      ElapsedGrows(dt, j, k - 1);
    } else if j > k {
      ElapsedGrows(dt, k, j);
    }
  }

  /** The number of updates per step is determined by `dt`. */
  lemma TicksPerStepUnique(dt: real, k1: nat, k2: nat)
    requires TicksPerStep(dt, k1) && TicksPerStep(dt, k2)
    ensures k1 == k2
  {
    StillMovingBefore(dt, k1, k2);
    StillMovingBefore(dt, k1, k2 - 1);
  }

  /** At the default `dt = 1/60` a step with `STEP_TIME = 0.12` lasts 8 updates. */
  lemma EightTicksAtSixtyHz()
    ensures TicksPerStep(1.0 / 60.0, 8)
  {
    ElapsedIsProduct(1.0 / 60.0, 7);
    ElapsedIsProduct(1.0 / 60.0, 8);
  }

  /** The first `j >= from` whose elapsed time reaches the threshold, searched up to `bound`. */
  function FirstAtThreshold(dt: real, from: nat, bound: nat): (k: nat)
    requires dt > 0.0 && from <= bound && IDLE_THRESHOLD <= Elapsed(dt, bound)
    requires from == 0 || Elapsed(dt, from - 1) < IDLE_THRESHOLD
    ensures from <= k <= bound
    ensures IDLE_THRESHOLD <= Elapsed(dt, k)
    ensures k == 0 || Elapsed(dt, k - 1) < IDLE_THRESHOLD
    decreases bound - from
  {
    if IDLE_THRESHOLD <= Elapsed(dt, from) then from else FirstAtThreshold(dt, from + 1, bound)
  }

  /** Every positive frame time ends a step after finitely many updates. */
  lemma StepsEnd(dt: real) returns (k: nat)
    requires dt > 0.0
    ensures TicksPerStep(dt, k)
  {
    var bound := (IDLE_THRESHOLD / dt).Floor + 1;
    assert bound >= 1;
    ElapsedIsProduct(dt, bound);
    assert bound as real * dt >= IDLE_THRESHOLD by {
      assert bound as real > IDLE_THRESHOLD / dt;
      assert bound as real * dt > (IDLE_THRESHOLD / dt) * dt;
    }
    assert Elapsed(dt, 0) < IDLE_THRESHOLD;
    k := FirstAtThreshold(dt, 1, bound);
  }

  /** With a zero or negative frame time a step never ends. */
  lemma {:induction false} NonPositiveDtNeverStops(w: WalkerState, dt: real, n: nat)
    requires dt <= 0.0 && w.moving && w.t <= 0.0
    ensures UpdatedN(w, dt, n).moving && UpdatedN(w, dt, n).t <= 0.0
  {
    if n > 0 {
      NonPositiveDtNeverStops(w, dt, n - 1);
    }
  }

  /** After a unit step, `j <= k` updates leave the walker at the new cell, moving until the `k`-th. */
  lemma {:induction false} UpdatesDuringStep(w: WalkerState, dt: real, k: nat, j: nat)
    requires TicksPerStep(dt, k) && w.moving && w.t == 0.0 && j <= k
    ensures UpdatedN(w, dt, j) == WalkerState(w.cell, j < k, Elapsed(dt, j))
  {
    if j > 0 {
      UpdatesDuringStep(w, dt, k, j - 1);
      StillMovingBefore(dt, k, j);
    }
  }

  class GridWalker {
    var cellX: int
    var cellY: int
    var moving: bool
    /** The step timer `_t`. */
    var t: real

    function State(): WalkerState
      reads this
    {
      WalkerState((cellX, cellY), moving, t)
    }

    /** A new walker stands still at its start cell. */
    constructor (start: Cell)
      ensures State() == WalkerState(start, false, 0.0)
    {
      cellX, cellY := start.0, start.1;
      moving := false;
      t := 0.0;
    }

    method Step(dx: int, dy: int)
      modifies this
      ensures State() == Stepped(old(State()), dx, dy)
    {
      if Abs(dx) + Abs(dy) != 1 {
        return;
      }
      cellX := cellX + dx;
      cellY := cellY + dy;
      moving := true;
      t := 0.0;
    }

    method IsMoving() returns (b: bool)
      ensures b == moving
    {
      b := moving;
    }

    method OnUpdate(dt: real)
      modifies this
      ensures State() == Updated(old(State()), dt)
    {
      if !moving {
        return;
      }
      t := t + dt;
      if t >= IDLE_THRESHOLD {
        moving := false;
      }
    }
  }
}
