/**
 * The tick consumer (src/game/view.py): each frame the view pops at most one step, and only
 * while the walker is idle, hands it to the walker, updates the walker, and publishes the
 * walker's cell as the shared current cell. Camera and drawing are not modelled.
 */
module View {
  import opened Cells
  import opened Config
  import opened Entities
  import opened StepAdapter
  import opened ViewState
  import opened Bridge

  /** The start cell `(WORLD_W // 2, WORLD_H // 2)`. */
  const START: Cell := (WORLD_W / 2, WORLD_H / 2)

  /** What one frame reads and writes: the walker, the pending steps, and the shared current cell. */
  datatype TickState = TickState(walker: WalkerState, queue: seq<Step>, current: Cell)

  /** One `on_update(dt)`. */
  function Tick(s: TickState, dt: real): (r: TickState)
    ensures r.current == r.walker.cell
    ensures s.walker.moving ==> r.queue == s.queue && r.walker.cell == s.walker.cell
    ensures !s.walker.moving && s.queue == [] ==> r.queue == [] && r.walker == s.walker
    ensures !s.walker.moving && s.queue != [] ==> r.queue == s.queue[1..]
    ensures !s.walker.moving && s.queue != [] && IsUnitStep(s.queue[0].0, s.queue[0].1) ==>
      r.walker.cell == Add(s.walker.cell, s.queue[0])
  {
    var (w, q) :=
      if !s.walker.moving && |s.queue| > 0 then (Stepped(s.walker, s.queue[0].0, s.queue[0].1), s.queue[1..])
      else (s.walker, s.queue);
    var w' := Updated(w, dt);
    TickState(w', q, w'.cell)
  }

  /** `n` frames of `dt` in a row. */
  function Run(s: TickState, dt: real, n: nat): TickState
  {
    if n == 0 then s else Tick(Run(s, dt, n - 1), dt)
  }

  /** Frames compose: `a + b` frames are `a` frames followed by `b` frames. */
  lemma {:induction false} RunAdd(s: TickState, dt: real, a: nat, b: nat)
    ensures Run(s, dt, a + b) == Run(Run(s, dt, a), dt, b)
  {
    if b > 0 {
      RunAdd(s, dt, a, b - 1);
    }
  }

  /** Ticks never queue steps: the queue only ever loses its head, and stays made of unit steps. */
  lemma {:induction false} RunOnlyPops(s: TickState, dt: real, n: nat)
    requires AllUnit(s.queue)
    ensures var r := Run(s, dt, n);
      AllUnit(r.queue) && |r.queue| <= |s.queue| && r.queue == s.queue[|s.queue| - |r.queue|..]
  {
    if n > 0 {
      RunOnlyPops(s, dt, n - 1);
      var p := Run(s, dt, n - 1);
      if !p.walker.moving && p.queue != [] {
        assert p.queue[1..] == s.queue[|s.queue| - |p.queue| + 1..];
        assert AllUnit(p.queue[1..]) by {
          forall i | 0 <= i < |p.queue[1..]| ensures IsUnitStep(p.queue[1..][i].0, p.queue[1..][i].1) {
            assert p.queue[1..][i] == p.queue[i + 1];
          }
        }
      }
    }
  }

  /** One step's cycle: from idle, `j <= k` frames pop the head and keep the walker moving until frame `k`. */
  lemma {:induction false} Cycle(s: TickState, dt: real, k: nat, j: nat)
    requires TicksPerStep(dt, k) && !s.walker.moving && s.queue != []
    requires IsUnitStep(s.queue[0].0, s.queue[0].1)
    requires 1 <= j <= k
    ensures var c := Add(s.walker.cell, s.queue[0]);
      Run(s, dt, j) == TickState(WalkerState(c, j < k, Elapsed(dt, j)), s.queue[1..], c)
  {
    StillMovingBefore(dt, k, j);
    if j > 1 {
      Cycle(s, dt, k, j - 1);
    }
  }

  /** A whole cycle: after `k` frames from idle the head step is done and the walker is idle at its cell. */
  lemma CycleEnds(s: TickState, dt: real, k: nat)
    requires TicksPerStep(dt, k) && !s.walker.moving && s.queue != []
    requires IsUnitStep(s.queue[0].0, s.queue[0].1)
    ensures var r := Run(s, dt, k);
      && r.walker.cell == Add(s.walker.cell, s.queue[0])
      && !r.walker.moving && r.queue == s.queue[1..] && r.current == r.walker.cell
  {
    Cycle(s, dt, k, k);
  }

  /** The walker is idle at the start plus the first `p` steps, with the remaining steps queued. */
  predicate DoneSteps(s: TickState, r: TickState, p: nat)
    requires p <= |s.queue|
  {
    && r.walker.cell == Add(s.walker.cell, Sum(s.queue[..p]))
    && !r.walker.moving
    && r.queue == s.queue[p..]
    && r.current == r.walker.cell
  }

  /** After `k * p` frames from idle, the first `p` steps are done and the walker is idle again. */
  lemma {:induction false} RunPrefix(s: TickState, dt: real, k: nat, p: nat)
    requires TicksPerStep(dt, k) && !s.walker.moving && s.current == s.walker.cell
    requires AllUnit(s.queue) && p <= |s.queue|
    ensures DoneSteps(s, Run(s, dt, Frames(k, p)), p)
  {
    if p == 0 {
      assert Frames(k, 0) == 0 && s.queue[..0] == [];
    } else {
      RunPrefix(s, dt, k, p - 1);
      PrefixOneMore(s, dt, k, p);
    }
  }

  /** One more cycle extends the completed prefix by one step. */
  lemma PrefixOneMore(s: TickState, dt: real, k: nat, p: nat)
    requires TicksPerStep(dt, k) && AllUnit(s.queue) && 0 < p <= |s.queue|
    requires DoneSteps(s, Run(s, dt, Frames(k, p - 1)), p - 1)
    ensures DoneSteps(s, Run(s, dt, Frames(k, p)), p)
  {
    var q := s.queue;
    var n := Frames(k, p - 1);
    var m := Run(s, dt, n);
    assert m.queue[0] == q[p - 1] && m.queue[1..] == q[p..];
    var r := Run(m, dt, k);
    assert r.walker.cell == Add(m.walker.cell, q[p - 1]) && !r.walker.moving
      && r.queue == q[p..] && r.current == r.walker.cell by {
      CycleEnds(m, dt, k);
    }
    assert Run(s, dt, Frames(k, p)) == r by {
      FramesSucc(k, p);
      RunAdd(s, dt, n, k);
    }
    SumSnoc(q, p - 1);
    AddAssoc(s.walker.cell, Sum(q[..p - 1]), q[p - 1]);
  }

  /** The frames `p` steps of `k` ticks each take: `k * p`. */
  function Frames(k: nat, p: nat): nat
  {
    k * p
  }

  lemma FramesSucc(k: nat, p: nat)
    requires p > 0
    ensures Frames(k, p) == Frames(k, p - 1) + k
  {
  }

  /** Enough frames drain the queue: after `k * |q|` frames the walker stands at the start plus the steps' sum. */
  lemma RunDrains(s: TickState, dt: real, k: nat)
    requires TicksPerStep(dt, k) && !s.walker.moving && s.current == s.walker.cell && AllUnit(s.queue)
    ensures var r := Run(s, dt, Frames(k, |s.queue|));
      && r.walker.cell == Add(s.walker.cell, Sum(s.queue))
      && !r.walker.moving && r.queue == [] && r.current == r.walker.cell
  {
    RunPrefix(s, dt, k, |s.queue|);
    assert s.queue[..|s.queue|] == s.queue;
    assert s.queue[|s.queue|..] == [];
  }

  /** A walker at rest with the route `move_to_cell` planned ends at the requested cell. */
  lemma PlannedRouteArrives(from: Cell, to: Cell, dt: real, k: nat)
    requires TicksPerStep(dt, k)
    ensures var s := TickState(WalkerState(from, false, 0.0), Route(from, to), from);
      Run(s, dt, Frames(k, |Route(from, to)|)).walker.cell == to
  {
    RouteIsUnit(from, to);
    RouteReachesTarget(from, to);
    RunDrains(TickState(WalkerState(from, false, 0.0), Route(from, to), from), dt, k);
  }

  /**
   * The frame loop of tests/test_integration.py: while frames remain and the walker is not at
   * `target`, run one frame. It either stops at the target or has run its whole budget of frames.
   */
  function FrameLoop(s: TickState, dt: real, budget: nat, target: Cell): (r: TickState)
    ensures r.walker.cell == target || r == Run(s, dt, budget)
    decreases budget
  {
    if budget == 0 || s.walker.cell == target then s
    else
      RunFirst(s, dt, budget - 1);
      FrameLoop(Tick(s, dt), dt, budget - 1, target)
  }

  /** A frame followed by `n` frames is `n + 1` frames. */
  lemma RunFirst(s: TickState, dt: real, n: nat)
    ensures Run(Tick(s, dt), dt, n) == Run(s, dt, n + 1)
  {
    RunAdd(s, dt, 1, n);
  }

  /** Within one step's cycle the loop runs every frame when neither the cell nor the next one is the target. */
  lemma {:induction false} LoopThroughCycle(s: TickState, dt: real, k: nat, budget: nat, target: Cell, j: nat)
    requires TicksPerStep(dt, k) && !s.walker.moving && s.queue != []
    requires IsUnitStep(s.queue[0].0, s.queue[0].1)
    requires s.walker.cell != target && Add(s.walker.cell, s.queue[0]) != target
    requires j <= k <= budget
    ensures FrameLoop(s, dt, budget, target) == FrameLoop(Run(s, dt, j), dt, budget - j, target)
  {
    if j > 0 {
      LoopThroughCycle(s, dt, k, budget, target, j - 1);
      if j > 1 {
        Cycle(s, dt, k, j - 1);
      }
    }
  }

  /** After `p - 1` cycles neither the walker's cell nor the cell of the next step is the target. */
  lemma NextCycleAvoids(s: TickState, dt: real, k: nat, target: Cell, p: nat)
    requires TicksPerStep(dt, k) && !s.walker.moving && s.current == s.walker.cell
    requires AllUnit(s.queue) && 0 < p <= |s.queue|
    requires Add(s.walker.cell, Sum(s.queue[..p - 1])) != target
    requires Add(s.walker.cell, Sum(s.queue[..p])) != target
    ensures var m := Run(s, dt, Frames(k, p - 1));
      && m.walker.cell != target && !m.walker.moving && m.queue != []
      && Add(m.walker.cell, m.queue[0]) != target && IsUnitStep(m.queue[0].0, m.queue[0].1)
  {
    RunPrefix(s, dt, k, p - 1);
    var m := Run(s, dt, Frames(k, p - 1));
    assert m.queue[0] == s.queue[p - 1];
    SumSnoc(s.queue, p - 1);
    AddAssoc(s.walker.cell, Sum(s.queue[..p - 1]), s.queue[p - 1]);
  }

  /** The loop runs `k * p` full frames when none of the first `p` intermediate cells is the target. */
  lemma {:induction false} LoopThroughCycles(s: TickState, dt: real, k: nat, budget: nat, target: Cell, p: nat)
    requires TicksPerStep(dt, k) && !s.walker.moving && s.current == s.walker.cell
    requires AllUnit(s.queue) && p <= |s.queue| && Frames(k, p) <= budget
    requires forall i :: 0 <= i <= p ==> Add(s.walker.cell, Sum(s.queue[..i])) != target
    ensures FrameLoop(s, dt, budget, target) == FrameLoop(Run(s, dt, Frames(k, p)), dt, budget - Frames(k, p), target)
  {
    if p == 0 {
      assert Frames(k, 0) == 0;
    } else {
      LoopThroughCycles(s, dt, k, budget, target, p - 1);
      assert Add(s.walker.cell, Sum(s.queue[..p - 1])) != target;
      assert Add(s.walker.cell, Sum(s.queue[..p])) != target;
      NextCycleAvoids(s, dt, k, target, p);
      FramesSucc(k, p);
      LoopOneMoreCycle(s, dt, k, budget, target, Frames(k, p - 1));
    }
  }

  /** One more cycle of frames runs in full when neither its start nor its end cell is the target. */
  lemma LoopOneMoreCycle(s: TickState, dt: real, k: nat, budget: nat, target: Cell, n: nat)
    requires TicksPerStep(dt, k) && n + k <= budget
    requires var m := Run(s, dt, n);
      && m.walker.cell != target && !m.walker.moving && m.queue != []
      && Add(m.walker.cell, m.queue[0]) != target && IsUnitStep(m.queue[0].0, m.queue[0].1)
    requires FrameLoop(s, dt, budget, target) == FrameLoop(Run(s, dt, n), dt, budget - n, target)
    ensures FrameLoop(s, dt, budget, target) == FrameLoop(Run(s, dt, n + k), dt, budget - (n + k), target)
  {
    var m := Run(s, dt, n);
    LoopThroughCycle(m, dt, k, budget - n, target, k);
    RunAdd(s, dt, n, k);
  }

  /** A budget of `k` frames per planned step always suffices for the loop to stop at the target. */
  lemma {:induction false} FrameLoopArrives(s: TickState, dt: real, k: nat, budget: nat, target: Cell)
    requires TicksPerStep(dt, k) && !s.walker.moving && s.current == s.walker.cell
    requires AllUnit(s.queue) && Add(s.walker.cell, Sum(s.queue)) == target
    requires budget >= Frames(k, |s.queue|)
    ensures FrameLoop(s, dt, budget, target).walker.cell == target
    decreases |s.queue|
  {
    if s.walker.cell != target {
      assert s.queue != [];
      FramesSucc(k, |s.queue|);
      if Add(s.walker.cell, s.queue[0]) == target {
        Cycle(s, dt, k, 1);
      } else {
        LoopThroughCycle(s, dt, k, budget, target, k);
        Cycle(s, dt, k, k);
        var m := Run(s, dt, k);
        assert AllUnit(m.queue) by {
          forall i | 0 <= i < |m.queue| ensures IsUnitStep(m.queue[i].0, m.queue[i].1) {
            assert m.queue[i] == s.queue[i + 1];
          }
        }
        FrameLoopArrives(m, dt, k, budget - k, target);
      }
    }
  }

  /** The state right after the integration test's `move_to_cell(56, 57)`: walker idle at the start cell. */
  function IntegrationStart(): TickState
  {
    TickState(WalkerState(START, false, 0.0), Route(START, (56, 57)), START)
  }

  /** The test's route has 87 unit steps, and none of its first 75 prefixes ends at (56, 57). */
  lemma IntegrationRouteFacts()
    ensures var q := IntegrationStart().queue;
      && |q| == 87 && AllUnit(q)
      && forall i :: 0 <= i <= 75 ==> Add(START, Sum(q[..i])) != (56, 57)
  {
    var q := IntegrationStart().queue;
    assert START == (100, 100);
    assert |q| == 87 by {
      RouteReachesTarget(START, (56, 57));
    }
    assert AllUnit(q) by {
      RouteIsUnit(START, (56, 57));
    }
    forall i | 0 <= i <= 75 ensures Add(START, Sum(q[..i])) != (56, 57) {
      RouteProperPrefixMisses(START, (56, 57), i);
    }
  }

  /** After 600 frames (75 steps of 8 frames) the walker is at (56, 69). */
  lemma IntegrationAfter600()
    ensures Run(IntegrationStart(), 1.0 / 60.0, Frames(8, 75)).walker.cell == (56, 69)
  {
    var s := IntegrationStart();
    assert START == (100, 100);
    assert Run(s, 1.0 / 60.0, Frames(8, 75)).walker.cell == Add(START, Sum(s.queue[..75])) by {
      EightTicksAtSixtyHz();
      IntegrationRouteFacts();
      RunPrefix(s, 1.0 / 60.0, 8, 75);
    }
    assert Sum(s.queue[..75]) == (-44, -31) by {
      RoutePrefixSum(START, (56, 57), 75);
    }
  }

  /** As written: after the test's 600 frames at 1/60 s the walker is still at (56, 69), short of (56, 57). */
  lemma IntegrationBudgetFallsShort()
    ensures FrameLoop(IntegrationStart(), 1.0 / 60.0, 600, (56, 57)).walker.cell == (56, 69)
  {
    EightTicksAtSixtyHz();
    IntegrationRouteFacts();
    assert Frames(8, 75) == 600;
    LoopThroughCycles(IntegrationStart(), 1.0 / 60.0, 8, 600, (56, 57), 75);
    IntegrationAfter600();
  }

  /** Corrected: with 8 frames for each of the 87 planned steps, 696 frames, the walker reaches (56, 57). */
  lemma IntegrationBudgetSuffices()
    ensures FrameLoop(IntegrationStart(), 1.0 / 60.0, 696, (56, 57)).walker.cell == (56, 57)
  {
    EightTicksAtSixtyHz();
    RouteIsUnit(START, (56, 57));
    RouteReachesTarget(START, (56, 57));
    FrameLoopArrives(IntegrationStart(), 1.0 / 60.0, 8, 696, (56, 57));
  }

  /**
   * A walker at rest with a planned route runs every frame of all but the last step: after
   * `k * (|route| - 1)` frames it is idle one step before the target, with that step still queued.
   */
  lemma RouteLoopBeforeLast(from: Cell, to: Cell, dt: real, k: nat, budget: nat)
    requires TicksPerStep(dt, k) && from != to
    requires budget >= Frames(k, |Route(from, to)| - 1)
    ensures var s := TickState(WalkerState(from, false, 0.0), Route(from, to), from);
      var n := Frames(k, |Route(from, to)| - 1);
      && FrameLoop(s, dt, budget, to) == FrameLoop(Run(s, dt, n), dt, budget - n, to)
      && DoneSteps(s, Run(s, dt, n), |Route(from, to)| - 1)
  {
    var s := TickState(WalkerState(from, false, 0.0), Route(from, to), from);
    var p := |Route(from, to)| - 1;
    assert AllUnit(s.queue) by {
      RouteIsUnit(from, to);
    }
    forall i | 0 <= i <= p ensures Add(from, Sum(s.queue[..i])) != to {
      RouteProperPrefixMisses(from, to, i);
    }
    LoopThroughCycles(s, dt, k, budget, to, p);
    RunPrefix(s, dt, k, p);
  }

  /** The test's route: 87 steps, the last of them (0, -1) from (56, 58). */
  lemma IntegrationLastStep()
    ensures var q := Route(START, (56, 57));
      |q| == 87 && q[86] == (0, -1) && Add(START, Sum(q[..86])) == (56, 58)
  {
    assert START == (100, 100);
    assert Dir(100, 57) == -1;
    RouteReachesTarget(START, (56, 57));
    RouteLastStep(START, (56, 57));
  }

  /** One frame left: from idle, a queue whose head leads to the target stops the loop there. */
  lemma LoopLastFrame(m: TickState, dt: real, target: Cell)
    requires !m.walker.moving && m.queue != [] && IsUnitStep(m.queue[0].0, m.queue[0].1)
    requires m.walker.cell != target && Add(m.walker.cell, m.queue[0]) == target
    ensures FrameLoop(m, dt, 1, target).walker.cell == target
  {
    assert FrameLoop(m, dt, 1, target) == FrameLoop(Tick(m, dt), dt, 0, target);
  }

  /**
   * The tight budget for a planned route: `k` frames for each step but the last leave the walker
   * one step short, and one frame more pops the last step and reaches the target.
   */
  lemma RouteLoopTightBudget(from: Cell, to: Cell, dt: real, k: nat)
    requires TicksPerStep(dt, k) && from != to
    ensures var s := TickState(WalkerState(from, false, 0.0), Route(from, to), from);
      var p := |Route(from, to)| - 1;
      && FrameLoop(s, dt, Frames(k, p), to).walker.cell == Add(from, Sum(Route(from, to)[..p]))
      && FrameLoop(s, dt, Frames(k, p) + 1, to).walker.cell == to
  {
    var s := TickState(WalkerState(from, false, 0.0), Route(from, to), from);
    var q := Route(from, to);
    var p := |q| - 1;
    var n := Frames(k, p);
    RouteLoopBeforeLast(from, to, dt, k, n);
    RouteLoopBeforeLast(from, to, dt, k, n + 1);
    var m := Run(s, dt, n);
    assert m.queue == q[p..] && m.queue[0] == q[p];
    assert Add(m.walker.cell, m.queue[0]) == to by {
      RouteIsUnit(from, to);
      RouteReachesTarget(from, to);
      SumSnoc(q, p);
      AddAssoc(from, Sum(q[..p]), q[p]);
      assert q[..p + 1] == q;
    }
    RouteProperPrefixMisses(from, to, p);
    RouteIsUnit(from, to);
    LoopLastFrame(m, dt, to);
  }

  /** The tight budget of the test: 688 frames leave the walker one cell short, at (56, 58). */
  lemma IntegrationBudget688FallsShort()
    ensures FrameLoop(IntegrationStart(), 1.0 / 60.0, 688, (56, 57)).walker.cell == (56, 58)
  {
    IntegrationLastStep();
    EightTicksAtSixtyHz();
    assert Frames(8, 86) == 688;
    RouteLoopTightBudget(START, (56, 57), 1.0 / 60.0, 8);
  }

  /** The tight budget of the test: the 689th frame pops the 87th step, so 689 frames reach (56, 57). */
  lemma IntegrationBudget689Arrives()
    ensures FrameLoop(IntegrationStart(), 1.0 / 60.0, 689, (56, 57)).walker.cell == (56, 57)
  {
    IntegrationLastStep();
    EightTicksAtSixtyHz();
    assert Frames(8, 86) == 688;
    RouteLoopTightBudget(START, (56, 57), 1.0 / 60.0, 8);
  }

  class MainView {
    const npc: GridWalker
    /** The step adapter shared with the bridge. */
    const steps: NpcStepAdapter
    /** The shared current cell the view publishes to. */
    const current: CurrentCell

    function State(): TickState
      reads npc, steps, current
    {
      TickState(npc.State(), steps.steps, current.cell)
    }

    ghost predicate Valid()
      reads steps
    {
      steps.Valid()
    }

    /** The walker starts idle at (100, 100), published as the current cell; without an adapter a fresh one is used. */
    constructor (stepAdapter: NpcStepAdapter?, current: CurrentCell)
      requires stepAdapter != null ==> stepAdapter.Valid()
      modifies current
      ensures Valid() && this.current == current
      ensures stepAdapter != null ==> steps == stepAdapter
      ensures stepAdapter == null ==> fresh(steps)
      ensures State() == TickState(WalkerState(START, false, 0.0),
                                   if stepAdapter == null then [] else stepAdapter.steps, START)
    {
      npc := new GridWalker(START);
      var s: NpcStepAdapter;
      if stepAdapter != null {
        s := stepAdapter;
      } else {
        s := new NpcStepAdapter();
      }
      steps := s;
      this.current := current;
      new;
      current.SetCurrentCell(START.0, START.1);
    }

    method OnUpdate(dt: real)
      requires Valid()
      modifies npc, steps, current
      ensures Valid()
      ensures State() == Tick(old(State()), dt)
    {
      var busy := npc.IsMoving();
      var pending := steps.HasSteps();
      if !busy && pending {
        var step := steps.TryPop();
        if step.Some? {
          npc.Step(step.value.0, step.value.1);
        }
      }
      npc.OnUpdate(dt);
      current.SetCurrentCell(npc.cellX, npc.cellY);
    }
  }
}
