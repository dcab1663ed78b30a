/**
 * The bridge the agent uses to act on the world (src/game/adapters/game_io_bridge.py):
 * the movement planner `move_to_cell`, which expands a target cell into unit steps, and
 * pull/push calls delegated to the bus under the bridge's own NPC id.
 */
module Bridge {
  import opened Wrappers
  import opened Cells
  import opened Messages
  import opened Bus
  import opened StepAdapter
  import opened ViewState

  /** The direction the planner walks along one axis: `1 if target > current else -1`. */
  function Dir(from: int, to: int): int
  {
    if to > from then 1 else -1
  }

  /** The unit step along one axis in direction `d`. */
  function AxisStep(d: int, alongX: bool): Step
  {
    if alongX then (d, 0) else (0, d)
  }

  /** The planned route: `|x - cx|` steps along X, then `|y - cy|` steps along Y. */
  function Route(from: Cell, to: Cell): (r: seq<Step>)
    ensures |r| == Manhattan((to.0 - from.0, to.1 - from.1))
  {
    Repeat((Dir(from.0, to.0), 0), Abs(to.0 - from.0)) + Repeat((0, Dir(from.1, to.1)), Abs(to.1 - from.1))
  }

  /** The route leads to the target, with as many steps as the Manhattan distance. */
  lemma RouteReachesTarget(from: Cell, to: Cell)
    ensures Add(from, Sum(Route(from, to))) == to
    ensures |Route(from, to)| == Manhattan((to.0 - from.0, to.1 - from.1))
  {
    var nx, ny := Abs(to.0 - from.0), Abs(to.1 - from.1);
    var dx, dy := Dir(from.0, to.0), Dir(from.1, to.1);
    assert Route(from, to) == Repeat((dx, 0), nx) + Repeat((0, dy), ny);
    SumAppend(Repeat((dx, 0), nx), Repeat((0, dy), ny));
    SumRepeat((dx, 0), nx);
    SumRepeat((0, dy), ny);
    assert nx * dx == to.0 - from.0 by {
      if to.0 > from.0 { assert dx == 1; } else { assert dx == -1; }
    }
    assert ny * dy == to.1 - from.1 by {
      if to.1 > from.1 { assert dy == 1; } else { assert dy == -1; }
    }
  }

  /** Every planned step is unit cardinal, so `push_step` never raises from the planner. */
  lemma RouteIsUnit(from: Cell, to: Cell)
    ensures AllUnit(Route(from, to))
  {
    var nx := Abs(to.0 - from.0);
    var r := Route(from, to);
    forall i | 0 <= i < |r| ensures IsUnitStep(r[i].0, r[i].1) {
      RouteAt(from, to, i);
    }
  }

  /** The `i`-th planned step: along X for the first `|x - cx|` positions, along Y after. */
  lemma RouteAt(from: Cell, to: Cell, i: nat)
    requires i < |Route(from, to)|
    ensures var nx := Abs(to.0 - from.0);
      Route(from, to)[i] == if i < nx then (Dir(from.0, to.0), 0) else (0, Dir(from.1, to.1))
  {
    var nx, ny := Abs(to.0 - from.0), Abs(to.1 - from.1);
    if i < nx {
      RepeatAt((Dir(from.0, to.0), 0), nx, i);
    } else {
      RepeatAt((0, Dir(from.1, to.1)), ny, i - nx);
    }
  }

  /** All X steps precede all Y steps: no X step follows a Y step. */
  lemma RouteXThenY(from: Cell, to: Cell)
    ensures var r := Route(from, to);
      forall i, j :: 0 <= i < j < |r| && r[i].1 != 0 ==> r[j].0 == 0
    ensures var r := Route(from, to);
      forall i :: 0 <= i < |r| ==> (i < Abs(to.0 - from.0) <==> r[i].1 == 0)
  {
    var r := Route(from, to);
    forall i | 0 <= i < |r| ensures i < Abs(to.0 - from.0) <==> r[i].1 == 0 {
      RouteAt(from, to, i);
    }
    forall i, j | 0 <= i < j < |r| && r[i].1 != 0 ensures r[j].0 == 0 {
      RouteAt(from, to, i);
      RouteAt(from, to, j);
    }
  }

  /** Planning to the current cell yields no step. */
  lemma RouteToSelf(c: Cell)
    ensures Route(c, c) == []
  {
  }

  /** The example of a plan from (0,0) to (3,-2): three steps east, then two south. */
  lemma RouteExample()
    ensures Route((0, 0), (3, -2)) == [(1, 0), (1, 0), (1, 0), (0, -1), (0, -1)]
  {
    assert Repeat((1, 0), 3) == [(1, 0), (1, 0), (1, 0)];
    assert Repeat((0, -1), 2) == [(0, -1), (0, -1)];
  }

  /** No route of unit steps to the target is shorter than the planned one. */
  lemma RouteIsShortest(from: Cell, to: Cell, q: seq<Step>)
    requires AllUnit(q) && Add(from, Sum(q)) == to
    ensures |Route(from, to)| <= |q|
  {
    RouteReachesTarget(from, to);
    UnitStepsBoundDisplacement(q);
  }

  /** Where the first `p` planned steps lead: along X first, then along Y. */
  lemma RoutePrefixSum(from: Cell, to: Cell, p: nat)
    requires p <= |Route(from, to)|
    ensures var nx := Abs(to.0 - from.0);
      Sum(Route(from, to)[..p])
        == if p <= nx then (Dir(from.0, to.0) * p, 0) else (to.0 - from.0, Dir(from.1, to.1) * (p - nx))
  {
    var nx, ny := Abs(to.0 - from.0), Abs(to.1 - from.1);
    var xs, ys := Repeat((Dir(from.0, to.0), 0), nx), Repeat((0, Dir(from.1, to.1)), ny);
    if p <= nx {
      RepeatPrefix((Dir(from.0, to.0), 0), nx, p);
      assert Route(from, to)[..p] == xs[..p];
      SumRepeat((Dir(from.0, to.0), 0), p);
    } else {
      RepeatPrefix((0, Dir(from.1, to.1)), ny, p - nx);
      assert Route(from, to)[..p] == xs + ys[..p - nx];
      SumAppend(xs, Repeat((0, Dir(from.1, to.1)), p - nx));
      SumRepeat((Dir(from.0, to.0), 0), nx);
      SumRepeat((0, Dir(from.1, to.1)), p - nx);
    }
  }

  /** The route passes through the target only at its end: no proper prefix reaches it. */
  lemma RouteProperPrefixMisses(from: Cell, to: Cell, p: nat)
    requires p < |Route(from, to)|
    ensures Add(from, Sum(Route(from, to)[..p])) != to
  {
    RoutePrefixSum(from, to, p);
  }

  /** When the target's row differs, the route ends with a Y step into it, from the cell just before it. */
  lemma RouteLastStep(from: Cell, to: Cell)
    requires from.1 != to.1
    ensures var q := Route(from, to);
      var d := Dir(from.1, to.1);
      |q| > 0 && q[|q| - 1] == (0, d) && Add(from, Sum(q[..|q| - 1])) == (to.0, to.1 - d)
  {
    var q := Route(from, to);
    RouteReachesTarget(from, to);
    RouteAt(from, to, |q| - 1);
    RoutePrefixSum(from, to, |q| - 1);
  }

  class GameIOBridge<W> {
    const npcId: string
    const bus: WorldBus<W>
    const steps: NpcStepAdapter
    /** The current-cell holder the planner reads (shared with the view). */
    const current: CurrentCell

    constructor (npcId: string, bus: WorldBus<W>, steps: NpcStepAdapter, current: CurrentCell)
      ensures this.npcId == npcId && this.bus == bus && this.steps == steps && this.current == current
    {
      this.npcId := npcId;
      this.bus := bus;
      this.steps := steps;
      this.current := current;
    }

    /** A request is ignored when it names a non-empty id other than the bridge's own. */
    predicate Ignores(target: Option<string>)
    {
      target.Some? && target.value != "" && target.value != npcId
    }

    /** The steps `move_to_cell(x, y, target)` appends, read against the current cell. */
    function Planned(x: int, y: int, target: Option<string>): (r: seq<Step>)
      reads current
      ensures Ignores(target) ==> r == []
      ensures !Ignores(target) ==> AllUnit(r) && Add(current.cell, Sum(r)) == (x, y)
    {
      if Ignores(target) then []
      else
        RouteIsUnit(current.cell, (x, y));
        RouteReachesTarget(current.cell, (x, y));
        Route(current.cell, (x, y))
    }

    /**
     * One axis of the planner: `while c != to: push_step(d); c += d`, with `d = 1 if to > from
     * else -1`, pushing `(d, 0)` when walking along X and `(0, d)` along Y.
     */
    method WalkAxis(from: int, to: int, alongX: bool)
      requires steps.Valid()
      modifies steps
      ensures steps.Valid()
      ensures steps.steps == old(steps.steps) + Repeat(AxisStep(Dir(from, to), alongX), Abs(to - from))
    {
      var c := from;
      var d := if to > c then 1 else -1;
      var step := if alongX then (d, 0) else (0, d);
      assert IsUnitStep(step.0, step.1);
      ghost var before := steps.steps;
      ghost var k: nat := 0;
      while c != to
        invariant steps.Valid()
        invariant k <= Abs(to - from) && c == from + (if d == 1 then k as int else -(k as int))
        invariant steps.steps == before + Repeat(step, k)
        decreases Abs(to - from) - k
      {
        RepeatSnoc(step, k);
        var _ := steps.PushStep(step.0, step.1);
        c, k := c + d, k + 1;
      }
    }

    /**
     * Appends the planned route to the step queue: `|x - cx|` steps `(dx, 0)`, then `|y - cy|`
     * steps `(0, dy)`; nothing for a request addressed to another NPC.
     */
    method MoveToCell(x: int, y: int, target: Option<string>)
      requires steps.Valid()
      modifies steps
      ensures steps.Valid()
      ensures steps.steps == old(steps.steps) + Planned(x, y, target)
    {
      if target.Some? && target.value != "" && target.value != npcId {
        return;
      }
      var c := current.GetCurrentCell();
      WalkAxis(c.0, x, true);
      WalkAxis(c.1, y, false);
      assert steps.steps == old(steps.steps) + Route(c, (x, y));
    }

    /** Pull through the bus under the bridge's own id. */
    method RequestSnapshot(world: W) returns (r: Result<WorldSnapshot, BusError>)
      ensures r.Failure? <==> npcId !in bus.builders
      ensures r.Failure? ==> r.error == KeyError(npcId)
      ensures r.Success? ==> r.value == bus.builders[npcId](world)
    {
      r := bus.RequestSnapshot(npcId, world);
    }

    /** Poll through the bus under the bridge's own id. */
    method TryGetEvent() returns (r: Option<WorldEvent>)
      requires bus.Valid()
      modifies bus
      ensures bus.Valid()
      ensures bus.builders == old(bus.builders) && bus.lastSeq == old(bus.lastSeq)
      ensures npcId !in old(bus.queues) || old(bus.queues)[npcId] == [] ==> r == None && bus.queues == old(bus.queues)
      ensures npcId in old(bus.queues) && old(bus.queues)[npcId] != [] ==>
        && r == Some(old(bus.queues)[npcId][0].ev)
        && bus.queues == old(bus.queues)[npcId := old(bus.queues)[npcId][1..]]
    {
      r := bus.TryGetEvent(npcId);
    }

    /** Publish through the bus to the bridge's own id. */
    method PublishEvent(ev: WorldEvent)
      requires bus.Valid()
      modifies bus
      ensures bus.Valid()
      ensures bus.builders == old(bus.builders)
      ensures npcId !in old(bus.queues) ==> bus.queues == old(bus.queues) && bus.lastSeq == old(bus.lastSeq)
      ensures npcId in old(bus.queues) ==>
        && bus.lastSeq == old(bus.lastSeq) + 1
        && bus.queues == old(bus.queues)[npcId := Insert(old(bus.queues)[npcId], EntryFor(ev, bus.lastSeq))]
    {
      bus.PublishEvent(npcId, ev);
    }
  }
}
