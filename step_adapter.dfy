/**
 * The step queue the view drains one step per tick (src/game/adapters/npc_step_adapter.py):
 * a FIFO deque of unit cardinal steps.
 */
module StepAdapter {
  import opened Wrappers
  import opened Cells

  /** `ValueError("Solo pasos cardinales de 1 celda.")`. */
  datatype StepError = NotUnitStep(dx: int, dy: int)

  class NpcStepAdapter {
    /** The deque `_q`, head first. */
    var steps: seq<Step>

    /** Invariant: every queued element is a unit cardinal step. */
    ghost predicate Valid()
      reads this
    {
      AllUnit(steps)
    }

    constructor ()
      ensures Valid() && steps == []
    {
      steps := [];
    }

    /** Rejects anything but a unit cardinal step, leaving the queue unchanged; otherwise appends at the tail. */
    method PushStep(dx: int, dy: int) returns (r: Outcome<StepError>)
      requires Valid()
      modifies this
      ensures Valid()
      ensures r.Pass? <==> IsUnitStep(dx, dy)
      ensures r.Fail? ==> r.error == NotUnitStep(dx, dy) && steps == old(steps)
      ensures r.Pass? ==> steps == old(steps) + [(dx, dy)]
    {
      if Abs(dx) + Abs(dy) != 1 {
        return Fail(NotUnitStep(dx, dy));
      }
      steps := steps + [(dx, dy)];
      r := Pass;
    }

    /** True iff a step is pending. */
    method HasSteps() returns (b: bool)
      ensures b <==> |steps| > 0
    {
      b := steps != [];
    }

    /** Removes and returns the head; on an empty queue returns `None` and the queue stays empty. */
    method TryPop() returns (s: Option<Step>)
      requires Valid()
      modifies this
      ensures Valid()
      ensures old(steps) == [] ==> s == None && steps == []
      ensures old(steps) != [] ==> s == Some(old(steps)[0]) && steps == old(steps)[1..]
      ensures s.Some? ==> IsUnitStep(s.value.0, s.value.1)
    {
      if steps == [] {
        return None;
      }
      s := Some(steps[0]);
      steps := steps[1..];
    }
  }
}
