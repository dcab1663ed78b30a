/**
 * The action queue with optional callbacks (src/game/adapters/npc_arcade_adapter.py).
 * A callback is external code: the model records, in order, which callbacks were invoked and
 * with what argument; whether each one is installed is a flag.
 */
module ArcadeAdapter {
  import opened Wrappers
  import opened Cells

  /** `ValueError("Solo se permiten pasos cardinales de 1 celda.")`. */
  datatype ActionError = NotUnitAction(dx: int, dy: int)

  /** One invocation of a callback. */
  datatype CallbackCall = DequeueCalled(act: Step) | IdleCalled | StepDoneCalled

  class NpcBDIAdapter {
    /** The deque `_queue`, head first. */
    var queue: seq<Step>
    /** Whether `on_dequeue`, `on_idle` and `on_step_done` are set. */
    var onDequeue: bool
    var onIdle: bool
    var onStepDone: bool
    /** The callback invocations made so far, oldest first. */
    var calls: seq<CallbackCall>

    ghost predicate Valid()
      reads this
    {
      AllUnit(queue)
    }

    constructor ()
      ensures Valid() && queue == [] && calls == []
      ensures !onDequeue && !onIdle && !onStepDone
    {
      queue := [];
      onDequeue, onIdle, onStepDone := false, false, false;
      calls := [];
    }

    /** Rejects non-unit or non-cardinal vectors such as (1,1) or (0,0) with the queue unchanged; otherwise appends. */
    method PushAction(dx: int, dy: int) returns (r: Outcome<ActionError>)
      requires Valid()
      modifies this`queue
      ensures Valid()
      ensures r.Pass? <==> IsUnitStep(dx, dy)
      ensures r.Fail? ==> r.error == NotUnitAction(dx, dy) && queue == old(queue)
      ensures r.Pass? ==> queue == old(queue) + [(dx, dy)]
    {
      if Abs(dx) + Abs(dy) != 1 {
        return Fail(NotUnitAction(dx, dy));
      }
      queue := queue + [(dx, dy)];
      r := Pass;
    }

    /** True iff the queue is non-empty. */
    method HasActions() returns (b: bool)
      ensures b <==> |queue| > 0
    {
      b := |queue| > 0;
    }

    /**
     * Non-empty queue: removes the head, hands it to `on_dequeue` if set, returns it.
     * Empty queue: returns `None` and invokes `on_idle` if set; `on_dequeue` is not invoked.
     */
    method TryDequeue() returns (r: Option<Step>)
      requires Valid()
      modifies this`queue, this`calls
      ensures Valid()
      ensures old(queue) != [] ==>
        && r == Some(old(queue)[0])
        && queue == old(queue)[1..]
        && calls == old(calls) + (if onDequeue then [DequeueCalled(old(queue)[0])] else [])
      ensures old(queue) == [] ==>
        && r == None
        && queue == []
        && calls == old(calls) + (if onIdle then [IdleCalled] else [])
    {
      if queue != [] {
        var act := queue[0];
        queue := queue[1..];
        if onDequeue {
          calls := calls + [DequeueCalled(act)];
        }
        return Some(act);
      }
      if onIdle {
        calls := calls + [IdleCalled];
      }
      r := None;
    }

    /** Invokes `on_step_done` only if it is set; never touches the queue. */
    method NotifyStepDone()
      modifies this`calls
      ensures calls == old(calls) + (if onStepDone then [StepDoneCalled] else [])
    {
      if onStepDone {
        calls := calls + [StepDoneCalled];
      }
    }
  }
}
