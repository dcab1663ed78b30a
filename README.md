# Grid NPC mediator — a Dafny model

This project models the mediator core of a grid RPG in which a BDI agent drives an NPC. That core sits between the agent and the arcade view. It has five parts:

- **World bus** (`Bus`): a registry from NPC id to a snapshot builder (pull), plus a per-NPC priority event queue (push). Events are served by descending priority, then in publish order. One global sequence counter numbers them.
- **Message records** (`Messages`): the frozen, versioned `WorldSnapshot` and `WorldEvent` records, and the four event kinds.
- **Step queues** (`StepAdapter`, `ArcadeAdapter`): FIFO deques that accept only unit cardinal steps. The BDI variant also logs which optional callbacks it invoked.
- **Movement planner** (`Bridge`): `move_to_cell` walks X first, then Y, from the shared current cell (`ViewState`). It pushes one unit step per cell. A request addressed to another NPC is ignored.
- **Tick consumer** (`Entities`, `View`): the grid walker's cell, moving flag and step timer, and `MainView.on_update`. Each frame pops at most one step, and only when the walker is idle, then publishes the walker's cell.

Around this core the model also covers:

- the pixel helpers of the grid (`Grid`) and the bakery rectangle (`Areas`);
- the agent's inventory and data-file layout (`BaseAgent`);
- the agent's site parser and the inventory and movement effects of its `.move`, `.catch`, `.drop` and `.update_inventory` actions (`Agent`).

How the source maps onto Dafny:

- Code that mutates state becomes classes whose methods are proved against specification functions. Examples are `Insert` for the priority queue, `Route` for the planner, `Tick` for one frame, and `AddItems`/`SubtractItems` for the inventory.
- The properties the source promises are lemmas about those functions.
- Python exceptions become `Result`/`Outcome` values.
- The module-global current cell is an object shared by the view and the bridge.
- The walker's timer is an exact `real`.

## Model

| member | source | states |
|---|---|---|
| Messages.KindName | src/game/messaging/messages.py:7 | the wire spelling of a kind is a non-empty lower-case snake_case word |
| Messages.ParseKind | src/game/messaging/messages.py:7 | an event kind is exactly one of `time_tick`, `zone_alert`, `npc_interaction`, `world_change`: every spelling of a kind reads back as that kind, and nothing else reads as a kind |
| Messages.RecordDefaults | src/game/messaging/messages.py:9-30 | `priority` defaults to 0 and `last_events` to the empty list; records are values equal field by field |
| Bus.BeforeMeansPriorityThenFifo | src/game/messaging/world_bus.py:44 | the key `(-priority, seq)` puts the higher priority first and, within one priority, the smaller sequence number first |
| Bus.Insert | src/game/messaging/world_bus.py:44 | putting an entry younger than all pending ones keeps the queue in serving order and adds exactly that entry (multiset) |
| Bus.Published | src/game/messaging/world_bus.py:38-44 | the queue after a series of publishes is in serving order, holds only issued numbers, and holds exactly the published entries |
| Bus.DrainOrder | src/game/messaging/world_bus.py:38-54 | of two published events, the first one served has the higher priority, or the same priority and was published first, and vice versa |
| Bus.PublishedKeepsEveryEvent | src/game/messaging/world_bus.py:38-44 | no published event is lost or duplicated: each is pending exactly once |
| Bus.WorldBus.constructor | src/game/messaging/world_bus.py:13-17 | no builders, no queues, counter 0 |
| Bus.WorldBus.RegisterNpc | src/game/messaging/world_bus.py:19-22 | installs or overwrites the builder and replaces the queue by an empty one; counter unchanged |
| Bus.WorldBus.UnregisterNpc | src/game/messaging/world_bus.py:24-27 | removes builder and queue; an unknown id is not an error |
| Bus.WorldBus.RequestSnapshot | src/game/messaging/world_bus.py:30-35 | `KeyError` exactly for an unregistered id; otherwise the builder applied to the current world, no caching |
| Bus.WorldBus.PublishEvent | src/game/messaging/world_bus.py:38-44 | unknown id: nothing changes, counter included; otherwise the counter rises by one and the event is inserted under `(-priority, counter)`; no other queue changes |
| Bus.WorldBus.TryGetEvent | src/game/messaging/world_bus.py:46-54 | `None` for an unknown id or an empty queue; otherwise removes and returns the head, which precedes every entry left |
| StepAdapter.NpcStepAdapter.constructor | src/game/adapters/npc_step_adapter.py:12-13 | the queue starts empty |
| StepAdapter.NpcStepAdapter.PushStep | src/game/adapters/npc_step_adapter.py:15-18 | fails with `ValueError` iff the step is not unit cardinal, leaving the queue unchanged; otherwise appends at the tail; every queued step stays unit |
| StepAdapter.NpcStepAdapter.HasSteps | src/game/adapters/npc_step_adapter.py:20-21 | true iff a step is pending |
| StepAdapter.NpcStepAdapter.TryPop | src/game/adapters/npc_step_adapter.py:23-24 | removes and returns the head (FIFO); on an empty queue returns `None` and stays empty |
| ArcadeAdapter.NpcBDIAdapter.constructor | src/game/adapters/npc_arcade_adapter.py:19-23 | empty queue, no callbacks set, none invoked |
| ArcadeAdapter.NpcBDIAdapter.PushAction | src/game/adapters/npc_arcade_adapter.py:25-28 | rejects (1,1), (0,0) and every other non-unit vector with the queue unchanged; otherwise appends |
| ArcadeAdapter.NpcBDIAdapter.HasActions | src/game/adapters/npc_arcade_adapter.py:30-31 | true iff the queue is non-empty |
| ArcadeAdapter.NpcBDIAdapter.TryDequeue | src/game/adapters/npc_arcade_adapter.py:33-41 | non-empty: removes and returns the head and passes it to `on_dequeue` if set; empty: `None`, `on_idle` if set, never `on_dequeue` |
| ArcadeAdapter.NpcBDIAdapter.NotifyStepDone | src/game/adapters/npc_arcade_adapter.py:43-45 | invokes `on_step_done` only when set; the queue is untouched |
| ViewState.CurrentCell.constructor | src/game/view_state.py:6 | the initial current cell is (0, 0) |
| ViewState.CurrentCell.SetCurrentCell | src/game/view_state.py:8-10 | overwrites the value unconditionally |
| ViewState.CurrentCell.GetCurrentCell | src/game/view_state.py:12-13 | returns the last value set, without side effects |
| Bridge.Route | src/game/adapters/game_io_bridge.py:33-41 | the planner emits one step per unit of Manhattan distance between the current cell and the target |
| Bridge.RouteReachesTarget | src/game/adapters/game_io_bridge.py:33-41 | the planned steps sum to target minus start, and there are Manhattan-distance many of them |
| Bridge.RouteIsUnit | src/game/adapters/game_io_bridge.py:34-41 | every planned step is unit cardinal, so `push_step` never raises from the planner |
| Bridge.RouteAt | src/game/adapters/game_io_bridge.py:34-41 | step `i` is the X step `(sign, 0)` for `i < abs(x - cx)`, else the Y step `(0, sign)` |
| Bridge.RouteXThenY | src/game/adapters/game_io_bridge.py:35-41 | all X steps precede all Y steps |
| Bridge.RouteToSelf | src/game/adapters/game_io_bridge.py:34-41 | planning to the current cell gives no steps |
| Bridge.RouteExample | src/game/adapters/game_io_bridge.py:33-41 | from (0,0) to (3,-2): three (1,0) steps then two (0,-1) steps |
| Bridge.RouteIsShortest | src/game/adapters/game_io_bridge.py:33-41 | no sequence of unit steps reaches the target in fewer steps |
| Bridge.RoutePrefixSum | src/game/adapters/game_io_bridge.py:33-41 | where the walker stands after the first `p` planned steps |
| Bridge.RouteProperPrefixMisses | src/game/adapters/game_io_bridge.py:33-41 | no proper prefix of the route ends at the target |
| Bridge.RouteLastStep | src/game/adapters/game_io_bridge.py:38-41 | when the target's row differs, the last step is the Y step into it, taken from the cell just before the target |
| Bridge.GameIOBridge.constructor | src/game/adapters/game_io_bridge.py:18-21 | keeps the id, the bus and the step adapter |
| Bridge.GameIOBridge.Planned | src/game/adapters/game_io_bridge.py:24-41 | what `move_to_cell` pushes: nothing for a non-empty foreign id, otherwise unit steps that lead from the shared current cell to the requested one |
| Bridge.GameIOBridge.WalkAxis | src/game/adapters/game_io_bridge.py:34-41 | one axis loop appends `abs(to - from)` copies of the unit step towards `to` |
| Bridge.GameIOBridge.MoveToCell | src/game/adapters/game_io_bridge.py:24-41 | appends nothing for a non-empty foreign id, otherwise exactly the X-then-Y route from the current cell |
| Bridge.GameIOBridge.RequestSnapshot | src/game/adapters/game_io_bridge.py:44-45 | the bus's pull for the bridge's own id |
| Bridge.GameIOBridge.TryGetEvent | src/game/adapters/game_io_bridge.py:47-48 | the bus's poll for the bridge's own id |
| Bridge.GameIOBridge.PublishEvent | src/game/adapters/game_io_bridge.py:51-52 | the bus's publish to the bridge's own id |
| Entities.Stepped | src/game/entities.py:18-25 | a non-unit step changes nothing; a unit step moves the cell by exactly `(dx, dy)`, sets moving and resets the timer |
| Entities.Updated | src/game/entities.py:31-41 | never changes the cell; idle: nothing changes; moving: the timer grows by `dt` and moving ends once it reaches `STEP_TIME - 1e-6` |
| Entities.StepIgnoresMotion | src/game/entities.py:18-25 | a step ignores the moving flag and timer: a step during motion re-targets from the new cell |
| Entities.UpdatedN | src/game/entities.py:31-41 | repeated updates keep the cell, leave an idle walker alone and never start motion |
| Entities.StillMovingBefore | src/game/entities.py:31-41 | within one step, exactly the updates before the `k`-th leave the walker moving |
| Entities.TicksPerStepUnique | src/game/entities.py:39 | the number of updates a step lasts is determined by `dt` |
| Entities.EightTicksAtSixtyHz | src/game/entities.py:39-41 | at `dt = 1/60` and `STEP_TIME = 0.12` a step lasts 8 updates |
| Entities.StepsEnd | src/game/entities.py:31-41 | every positive `dt` ends a step after finitely many updates |
| Entities.NonPositiveDtNeverStops | src/game/entities.py:31-41 | with `dt <= 0` a started step never ends |
| Entities.UpdatesDuringStep | src/game/entities.py:31-41 | after a unit step the walker stays at the new cell, moving until the `k`-th update |
| Entities.GridWalker.constructor | src/game/entities.py:9-15 | the walker starts at `start_cell`, idle, timer 0 |
| Entities.GridWalker.Step | src/game/entities.py:18-25 | the new state is `Stepped` of the old one |
| Entities.GridWalker.IsMoving | src/game/entities.py:27-28 | returns the moving flag |
| Entities.GridWalker.OnUpdate | src/game/entities.py:31-41 | the new state is `Updated` of the old one |
| View.Tick | src/game/view.py:28-37 | after a frame the current cell is the walker's cell; a moving walker leaves the queue alone; an idle one pops at most the head and steps by it |
| View.RunAdd | src/game/view.py:28-37 | `a + b` frames are `a` frames followed by `b` frames |
| View.RunOnlyPops | src/game/view.py:30-33 | frames only ever remove steps from the head, and the queue stays made of unit steps |
| View.CycleEnds | src/game/view.py:28-37 | from idle, `k` frames pop the head, move by it and leave the walker idle there |
| View.RunPrefix | src/game/view.py:28-37 | after `k * p` frames from idle, the first `p` steps are done and the rest are still queued |
| View.RunDrains | src/game/view.py:28-37 | enough frames consume every queued step and leave the walker idle at the start plus their vector sum |
| View.PlannedRouteArrives | src/game/view.py:28-37 | a walker at rest that drains a planned route ends idle at the requested cell |
| View.FrameLoop | tests/test_integration.py:59-62 | the test's frame loop stops at the target or after its whole budget, having then run exactly `budget` frames |
| View.FrameLoopArrives | tests/test_integration.py:59-64 | a budget of `k` frames per planned step always brings the loop to the target |
| View.IntegrationRouteFacts | tests/test_integration.py:56 | the route from (100,100) to (56,57) has 87 steps and no early prefix ends at the target |
| View.IntegrationAfter600 | tests/test_integration.py:59-62 | 600 frames at 1/60 s leave the walker at (56, 69) |
| View.IntegrationBudgetFallsShort | tests/test_integration.py:59-64 | as written, the 600-frame loop ends with the walker at (56, 69), short of (56, 57) |
| View.IntegrationBudgetSuffices | tests/test_integration.py:59-64 | 696 frames, a full 8 for each of the 87 steps, reach (56, 57) |
| View.RouteLoopBeforeLast | tests/test_integration.py:59-62 | with a planned route, the loop runs every frame of all but the last step and the walker is then idle one step short, that step still queued |
| View.LoopLastFrame | tests/test_integration.py:59-62 | from idle, one frame whose popped step leads to the target ends the loop there |
| View.RouteLoopTightBudget | tests/test_integration.py:59-64 | for any planned route, `k` frames per step but the last leave the walker one step short, and one frame more reaches the target |
| View.IntegrationLastStep | tests/test_integration.py:56 | the test's route has 87 steps, the last one (0, -1) from (56, 58) |
| View.IntegrationBudget688FallsShort | tests/test_integration.py:59-64 | 688 frames (86 full steps) leave the walker at (56, 58), one cell short |
| View.IntegrationBudget689Arrives | tests/test_integration.py:59-64 | 689 frames reach (56, 57): the 689th frame pops the 87th step |
| View.MainView.constructor | src/game/view.py:11-26 | the walker starts idle at (WORLD_W // 2, WORLD_H // 2) = (100, 100), published as the current cell; a fresh empty adapter when none is given |
| View.MainView.OnUpdate | src/game/view.py:28-37 | the new walker, queue and current cell are `Tick` of the old ones |
| Grid.CellToCenterPx | src/game/grid.py:27-28 | the centre lies strictly inside the cell's pixel span on each axis |
| Grid.CenterBackToCell | src/game/grid.py:27-28 | the centre of a cell falls back in that cell |
| Grid.CellToCenterInjective | src/game/grid.py:27-28 | distinct cells have distinct centres |
| Grid.CellToCenterExample | tests/test_grid_math.py:4-8 | cell (10, 7) is centred at (504, 360) |
| Grid.ClampWorldPx | src/game/grid.py:30-33 | the result is in the world's pixel box, equals the input on in-range coordinates, and is the nearer bound otherwise |
| Grid.ClampIdempotent | src/game/grid.py:30-33 | clamping twice is clamping once |
| Grid.ClampNearest | src/game/grid.py:30-33 | no in-world coordinate is nearer to the input than the clamped one |
| Grid.WorldCentresUnclamped | src/game/grid.py:27-33 | centres of in-world cells are left alone by the clamp |
| Areas.NewBakeryArea | src/game/areas.py:7-13 | the area keeps its caption and is a tile-aligned rectangle of positive width and height |
| Areas.RectCells | src/game/areas.py:15-16 | four ordered bounds; for a constructed area, the first corner and the inclusive spans times `TILE` are its own `x`, `y`, `w`, `h` |
| Areas.BakeryGeometry | src/game/areas.py:7-13 | origin (2400, 2400), width and height 11 tiles = 528 pixels, both positive |
| Areas.DefaultLabel | src/game/areas.py:7-8 | the default label is "PANADERÍA" |
| Areas.CellInBakeryIffCentreInRect | src/game/areas.py:10-16 | a cell is within the bakery's bounds iff its centre lies in the pixel rectangle |
| Areas.BakeryInsideWorld | src/game/areas.py:10-13 | the rectangle lies inside the world |
| BaseAgent.AddItems | src/agents/NPC_Base_Agent.py:69-70 | the count of `obj` rises by `count`, every other count is unchanged, and `obj` is stored |
| BaseAgent.SubtractItems | src/agents/NPC_Base_Agent.py:73-77 | `KeyError` iff `obj` is absent and `count <= 0`; too little stock changes nothing; otherwise the count drops by `count` and no non-positive entry is kept; other counts unchanged |
| BaseAgent.AddKeepsPositive | src/agents/NPC_Base_Agent.py:69-70 | adding a positive count keeps every stored count positive |
| BaseAgent.SubtractKeepsPositive | src/agents/NPC_Base_Agent.py:73-77 | a successful subtract keeps every stored count positive |
| BaseAgent.AddThenSubtractRestores | src/agents/NPC_Base_Agent.py:69-77 | subtracting what was just added restores the inventory |
| BaseAgent.SubtractZeroOfAbsentRaises | src/agents/NPC_Base_Agent.py:74-75 | subtracting 0 of an absent item raises `KeyError` |
| BaseAgent.BeliefFor | src/agents/NPC_Base_Agent.py:83-90 | `has(obj, cnt)` is set iff the count is positive, with that count; otherwise `has(obj)` is removed |
| BaseAgent.BeliefMirrorsPresence | src/agents/NPC_Base_Agent.py:83-90 | in a positive inventory the belief is removed exactly when the item is absent |
| BaseAgent.Inventory.constructor | src/agents/NPC_Base_Agent.py:65-67 | empty items, no belief calls |
| BaseAgent.Inventory.Add | src/agents/NPC_Base_Agent.py:69-71 | items become `AddItems` of the old ones; one belief call when a BDI interface is attached |
| BaseAgent.Inventory.Subtract | src/agents/NPC_Base_Agent.py:73-78 | on `KeyError` nothing changes and no belief call is made; otherwise items become `SubtractItems` of the old ones and the belief is mirrored |
| BaseAgent.Inventory.Count | src/agents/NPC_Base_Agent.py:80-81 | the stored count, 0 for an absent item |
| BaseAgent.Inventory.UpdateBelief | src/agents/NPC_Base_Agent.py:83-90 | no call without a BDI interface, otherwise exactly the belief for the current count |
| BaseAgent.ProfileAndMemoryLayout | src/agents/NPC_Base_Agent.py:27-44 | `data_root/npc_profiles/<name>.json` and `data_root/memory/<name>_dynamic.json` |
| BaseAgent.IntentionFilesShareDirectory | src/agents/NPC_Base_Agent.py:36-50 | the `.asl` and `.json` intention files share a directory, and their last components are `<name>.asl` and `<name>.json` |
| BaseAgent.SharedFilesIgnoreName | src/agents/NPC_Base_Agent.py:34-58 | the common history and the two base files do not depend on the NPC's name |
| BaseAgent.PerNpcFilesDistinct | src/agents/NPC_Base_Agent.py:42-50 | two NPCs with different names never share a per-NPC file |
| Agent.StripIsTrim | src/agents/npc_agent.py:50 | `strip()` returns a slice of its input, cutting only whitespace, and the result neither starts nor ends with whitespace |
| Agent.StripPadded | src/agents/npc_agent.py:50 | whitespace around a text without whitespace at its ends is exactly what `strip()` removes |
| Agent.StripIdempotent | src/agents/npc_agent.py:50 | stripping twice is stripping once |
| Agent.ParseShowRoundTrip | src/agents/npc_agent.py:45-52 | `int()` reads back every integer's decimal numeral, whitespace around it included |
| Agent.ParseRejectsForeignChar | src/agents/npc_agent.py:48-54 | a text with a character other than whitespace, sign or digit is a conversion failure |
| Agent.SplitAtFirstComma | src/agents/npc_agent.py:48-49 | no comma gives no split; otherwise the parts are the text before the first comma and the text after it |
| Agent.SplitAfterCommaFree | src/agents/npc_agent.py:49 | a comma-free prefix followed by a comma splits exactly there |
| Agent.SiteFromPair | src/agents/npc_agent.py:45-47 | `(x, y)` and `[x, y]` of integers give `(x, y)` |
| Agent.SiteFromString | src/agents/npc_agent.py:48-50 | `"x,y"` with any whitespace around either numeral gives `(x, y)` |
| Agent.SiteWithTwoCommas | src/agents/npc_agent.py:48-54 | a string with two commas gives `None` |
| Agent.SiteOneTwoThree | src/agents/npc_agent.py:48-54 | "1,2,3" gives `None` |
| Agent.SiteFromDict | src/agents/npc_agent.py:51-52 | a dict with keys "x" and "y" gives their conversions |
| Agent.SiteOtherShapes | src/agents/npc_agent.py:45-55 | scalars, wrong-length sequences, comma-free strings and dicts missing a key give `None` |
| Agent.NormalizeSiteToXY | src/agents/npc_agent.py:42-55 | a cell comes only from one of the three accepted shapes: a two-element tuple or list, a string with a comma, a dict with `x` and `y` |
| Agent.InventoryOp | src/agents/npc_agent.py:150-156 | "add" adds, "subtract" subtracts (a raising or insufficient subtract changes nothing), any other op changes nothing; other items never change |
| Agent.UpdateAddThenSubtract | src/agents/npc_agent.py:150-154 | an "add" then a "subtract" of the same count restores a positive inventory |
| Agent.UpdateKeepsPositive | src/agents/npc_agent.py:150-154 | with a positive count either op keeps every stored count positive |
| Agent.DropNeverRaises | src/agents/npc_agent.py:139 | subtracting one never raises, and leaves an absent item absent |
| Agent.CatchThenDropRestores | src/agents/npc_agent.py:118-143 | a catch then a drop of the same object restores a positive inventory |
| Agent.NpcAgent.constructor | src/agents/npc_agent.py:20-32 | keeps the id, the inventory and the optional bridge |
| Agent.NpcAgent.Move | src/agents/npc_agent.py:94-116 | an unparseable site enqueues nothing; otherwise the bridge appends its plan to the parsed cell for this agent's id |
| Agent.NpcAgent.Catch | src/agents/npc_agent.py:118-127 | one more of the object, belief mirrored |
| Agent.NpcAgent.Drop | src/agents/npc_agent.py:129-143 | an unparseable site changes nothing; otherwise one of the object is subtracted |
| Agent.NpcAgent.UpdateInventory | src/agents/npc_agent.py:145-160 | a count `int()` rejects fails before any change; otherwise the inventory becomes `InventoryOp` of the old one, and a belief call is recorded exactly when an add or a non-raising subtract ran |

## Left out

- Locking in the world bus (`RLock`) and the unlocked dictionary read in `try_get_event`: every operation is one atomic step.
- Bus.WorldBus.TryGetEvent: the `timeout` wait is not modelled; the poll is non-blocking, as with the default `timeout=0`.
- Snapshot builders are opaque functions of a world-state parameter. The `time.perf_counter` builder of `src/game/app.py` is not part of this model.
- Entities.GridWalker.OnUpdate: the pixel interpolation (`alpha`, `center_x/center_y`, `_target_px`) is not modelled, only the cell, the moving flag and the timer.
- Entities.Updated: Python float rounding is not modelled; the timer is an exact `real`.
- Grid.CellToCenterPx and Grid.ClampWorldPx: pixel coordinates are exact `real`s, so float rounding, NaN and infinities are not modelled.
- Camera, drawing and rendering: `MainView.on_draw`, the camera in `on_update`, `GridRenderer.draw_visible`, `BakeryArea.draw`, and `src/game/app.py`.
- Callback effects in `NpcBDIAdapter`: a callback is logged, not run, so re-entrant calls into the adapter are not modelled.
- Agent.ToInt: `int()` is modelled for booleans, integers and strings of ASCII decimal digits with an optional sign and surrounding whitespace. Underscores, non-ASCII digits, float truncation (`int(3.7)`) and `__int__` objects are not modelled.
- Agent.PyValue: dict keys are strings only, so a dict keyed by other values is not modelled.
- Agent.NpcAgent.Move: the `hasattr(game_io, "move_to_cell")` test is modelled as "the bridge is present"; logging is left out.
- AgentSpeak `grounded`, the `.search`, `.accessible` and `.object_at` stubs, `get_plan`, and the Gemini set-up: a foreign library, stubs, and calls to an external language model.
- `NPCBaseAgent` file handling (`_ensure_*`, bootstrap, prompt loading, history, `save_new_intention`) and `src/utils/utils.py`: file-system and JSON I/O.
- BaseAgent.Path: a path is a list of components joined by `/`. A name containing `/` and `pathlib` normalisation are not modelled.
- Constants from `src/game/config.py` are copied into `Config`; `src/utils/constants.py` is not part of this model.

## Notes on behaviour

- Event kind: the interaction kind is spelled `npc_interaction` on the wire.
- Priority: `priority` is not restricted to 0..2; any integer is accepted and ordered.
- Step threshold: a step ends when the timer reaches `STEP_TIME - 1e-6`, slightly before `STEP_TIME`.
- Notifications: the walker and the view send no "idle" or "step done" notification. Only `NpcBDIAdapter` has such callbacks, and `MainView` does not use it.
- Unknown-id error: `request_snapshot` raises `KeyError` for an unknown id.

## Findings

| source | as written | input that shows it | evidently intended | confidence | as-written member | corrected member |
|---|---|---|---|---|---|---|
| tests/test_integration.py:59-64 | the frame loop runs at most 600 frames of 1/60 s before asserting arrival at (56, 57) | start (100, 100), target (56, 57): the route has 87 steps of 8 frames; after 600 frames the NPC is at (56, 69); the loop first arrives at frame 689 (86 full steps plus the frame that pops the 87th), and 688 frames leave it at (56, 58) | a budget of at least 689 frames; 696, a full 8 frames per step, is a comfortable one | not executed | View.IntegrationBudgetFallsShort | View.IntegrationBudget689Arrives |
