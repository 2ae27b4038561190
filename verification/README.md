# Verified models of a Minecraft helper bot

The bot has three parts: a Node process that moves the body, a Python process that plans, and a
Paper plugin that protects the world. This project models the parts that decide something on
their own and proves what they keep, over every input, every run or every reachable state.

Code that changes fields, queues, caches or maps step by step is modelled by classes and loops
with invariants; each method is tied to a function or a predicate, and the results are lemmas
about those. Several processes at work at once are modelled as transition systems whose steps
are the pieces of code between two suspension points. A star (`*`) in a method is a choice that
is not the program's: a clock, another player, a failing call, a crash.

## What is modelled

**Local navigation** (`Geometry`, `Terrain`, `ReadBudget`, `Sweep`, `ScanLimits`, `ShortestPath`,
`RouteSearch`, `RouteSafety`, `MovementControl`, `Navigation`). `Terrain.LocalTerrain` is the bounded read cache
with its body, footing, surface and edge checks; each answers as the world would, or refuses
because the reads ran out. `RouteSearch.PlanLocalRoute` is the search loop itself. Its contract
says that the path is admissible and visits no point twice, that a reached plan is cheapest among
all admissible paths to the goal region, that an unreached plan stays put or ends on the frontier
with strictly better progress, and that giving up without hitting a limit means there is no route
and no reachable frontier point that makes more progress. Each expansion is of a different point that
can be reached, so fewer than 2048 such points mean that the search decides whether there is a route.
`Navigation` is the loop that walks the first step of a plan and plans again; each of its exits is
stated with the exact condition for it, and the whole walk step by step.

- A search from a fresh look at the terrain never runs out of its 24000 reads: no cell outside a box
  around the origin is read, and that box has at most 12168 cells (`ReadBudget.BudgetLasts`).

- The nine samples of an edge cover the whole motion exactly for axis-aligned edges
  (`Sweep.SweepCoveredIffAligned`); otherwise they cover it for a body narrowed by a sixteenth of the
  displacement per axis. Only the first step of a route can be diagonal (`RouteSafety`).
- The scan of the cells around the body is never blind to a box exactly if the box stays inside its
  own cell (`ScanLimits.BoxIsScannedIff`). A fence does not: its cell is a hazard, but with a carpet
  above it that cell is never read, and an axis-aligned step from free ground onto the carpet passes
  although the body meets the fence there (`ScanLimits.TallShapeIsMissed`); the search takes such
  steps (`RouteSafety.PlanOverCarpets`). The sweep results are about shapes within their cells.

**Event delivery** (`AgentBridge`, `BridgeLaws`, `BridgeDelivery`, `BridgeService`). Thirteen kinds of atomic
steps: emitting, five kinds of timers, socket handlers, the ends of a send, and the catch and
finally handlers of a flush. The invariant of every run covers conservation and order of events,
liveness of the session and the absence of lost wake-ups. A batch that fails for good is put back
oldest first and loses its tail when the queue has filled up behind it;
`BridgeDelivery.DeliverableIffNotDoomed` says exactly when everything outstanding can still be
delivered, and `BridgeDelivery.DoomIsReachable` that the loss does occur.

**Wood collection** (`Cargo`, `StoredRecord`, `WoodLog`, `WoodService`). The whole service: commands,
the trip, the way home, the record on disk, crashes at any wait and restarts. Everything it starts
goes into a log, and every reachable log is lawful: nothing is dug, opened or deposited after a stop or an
interruption until the next start, a trip digs no more than was asked for, a deposit leaves the
baseline alone, and books close only when nothing above the baseline is left, with the chest
having gained exactly what was taken up. What has been dug stays owed on disk until it is settled
or reset. The guard's answers are in the log too: a trip fells exactly the logs of the allowed answers
that fit in what is left of the amount, in their order, or the first part of them if it fails on the way.

- A saved record loads again exactly if the position read at the opening of the trip was finite
  (`Cargo.ReloadsIff`, `WoodService.Service.SetOut`). The opening stores the position as it is read, and
  the distance test before it lets one through that is no number. The way home cannot be walked
  then, either (`WoodService.Service.WalkHome`), and only a reset in the same process helps.
- When the last write of a return fails, the record is closed in memory while the disk may still have
  it open (`WoodService.Service.ReturnAndStore`).

**Forestry guard** (`NaturalWood`, `TreeInspection`, `ForestryGuard`). The ledger of trees seen to
grow, the inspection of a tree and its surroundings, and single-use permits. A guarded player gets
through a break exactly with its own grant for that very block, at most ten seconds old, and the tree
approved again; working down the list that an approval returns always asks for the highest log,
as the guard demands, and after each cut the next log is still approved.

**Building** (`Building`, `BuildingMeaning`, `BuildingRuns`). Checkpoints, procurement, batches and rollback over any
sequence of advances, restarts and rollbacks.

- A rollback takes back one batch exactly when it starts from the placement or inspection phase;
  otherwise it restarts from the survey (`BuildingRuns.InStepIffUndoable`). A batch issued while
  material was short leaves the checkpoint in the procurement phase, so a rollback without a named
  phase then forgets all that stands (`BuildingRuns.UnnamedRollbackAfterShortage`).
- Reservations are made from the inventory and counted on top of it, so with an unchanged
  inventory every advance reserves the same stock again, and a shortage is reported as covered
  after enough advances (`BuildingRuns.ShortageVanishesIff`).

**Chat queue** (`ChatQueue`, `ChatQueueOrder`, `ChatQueueProgress`, `ChatService`). Accounting and order
of tasks under all interleavings of callers and the worker.

- While a notice about a dropped task is being sent, a new message can take the freed slot, and
  the worker then waits for room in the queue that only it empties. This can happen exactly when
  the queue is bounded and timed-out tasks are retried (`ChatQueueProgress.StandstillIff`), with any
  number of callers ahead of the worker in line (`ChatQueueProgress.GetStuck`).
- Each further message drops the oldest task and wakes the first in line. If whoever is woken looks
  for room before anything else happens, the worker goes on after one message more than there were
  callers ahead of it (`ChatQueueProgress.GoesOnIff`); if messages overtake the wake-ups, no number of
  them is enough (`ChatQueueProgress.NeverEnough`).

**Plan execution and reflection** (`Reflection`, `PlanExecutor`). Running a plan, handling a
failure and asking for another plan call each other; what a task leaves in the record of
reflections is stated exactly.

- A plan that pauses for a question leaves the reflection pending, and the next task's first plan
  decides it, whatever that task is about (`Reflection.NextTaskDecides`).

**Tunnel** (`TunnelGeometry`, `TunnelMode`). The enumeration of a tunnel's cells, the mining mask
and the run: how it ends, what it mines and where its torches are.

- Torches go to the right of the direction, while the tunnel extends towards greater coordinates. So a
  tunnel towards smaller coordinates has its torches inside, if it is two wide and two high, and one
  towards greater coordinates has them all in the wall (`TunnelGeometry.TorchInTunnelIff`).

## Model

| member | source | states |
|---|---|---|
| Geometry.HypotIsMetric | node-bot/runtime/localNavigation.ts:138-163 | Euclidean distance is never negative, is zero to itself and obeys the triangle inequality, which is all the search needs of it |
| Terrain.LocalTerrain.Block | node-bot/runtime/localNavigation.ts:35-55 | a read agrees with the world or is null because the budget of 24000 reads is spent; nothing cached is forgotten |
| Terrain.LocalTerrain.Scan | node-bot/runtime/localNavigation.ts:58-69 | the scan over a block of cells, stopping at the first unsafe one, is right about all of them or the reads ran out |
| Terrain.LocalTerrain.CheckBody | node-bot/runtime/localNavigation.ts:57-70 | clearBody is true exactly if no shape of the scanned cells meets the body and none is hazardous or unknown, unless the reads ran out; unknown is set exactly if the cell it stopped at could not be read |
| Terrain.LocalTerrain.Surfaces | node-bot/runtime/localNavigation.ts:72-85 | lists, nearest height first, only surfaces within a step of the height asked about, and all of them unless the reads ran out |
| Terrain.LocalTerrain.CheckStanding | node-bot/runtime/localNavigation.ts:87-103 | standable means a clear body, harmless cells underfoot and a support; a refusal means one is missing or the reads ran out, and counts as unobserved exactly if the first cell at fault could not be read |
| Terrain.LocalTerrain.CheckEdge | node-bot/runtime/localNavigation.ts:106-118 | an edge passes only with its limits, its landing, both columns and all nine samples clear; a refusal means one is not or the reads ran out |
| Terrain.LocalTerrain.CheckCrossing | node-bot/runtime/localNavigation.ts:114-116 | the nine samples at travelling height |
| Terrain.SortIsSorted | node-bot/runtime/localNavigation.ts:84 | sorting orders the surfaces by closeness and keeps each as often as it was |
| Terrain.TravelHeightBounded | node-bot/runtime/localNavigation.ts:108-109 | the body travels no lower than either end and at most 1.3 above each |
| ReadBudget.CellsInBox | node-bot/runtime/localNavigation.ts:35-55 | distinct cells read within a box are at most the product of its sides |
| ReadBudget.BudgetLasts | node-bot/runtime/localNavigation.ts:35-38 | while only cells of a box around the origin were read, they are at most 12168 and the budget of 24000 is not spent |
| ReadBudget.EdgeIsInside | node-bot/runtime/localNavigation.ts:106-118 | the check of an edge between places in range reads no cell outside that box |
| Sweep.LocalScanIsGlobal | node-bot/runtime/localNavigation.ts:57-70 | with shapes inside their cells, a clear scan of the cells around the body means no block anywhere meets it |
| ScanLimits.BoxIsScannedIff | node-bot/runtime/localNavigation.ts:57-70 | whatever position the body is in, a box that meets it lies in a cell the scan reads, if and only if the box stays inside its cell |
| ScanLimits.ShapesAreScannedIff | node-bot/runtime/localNavigation.ts:57-70 | the same for whole worlds of ordered boxes |
| ScanLimits.LoneScanIsRightIff | node-bot/runtime/localNavigation.ts:57-70 | around a single box the scan's verdict is right in every position if and only if the box stays inside its cell |
| ScanLimits.TallShapeIsMissed | node-bot/runtime/localNavigation.ts:57-118 | from free ground an axis-aligned edge passes onto a carpet, which counts as standable, although the body there meets the fence below, which is a hazard |
| Sweep.VerticalLeg | node-bot/runtime/localNavigation.ts:111-113 | checks 0.2 apart cover every height of the rise and the descent |
| Sweep.AlignedCrossing | node-bot/runtime/localNavigation.ts:114-116 | nine samples cover every point of an axis-aligned crossing |
| Sweep.AlignedEdgeSweeps | node-bot/runtime/localNavigation.ts:106-118 | an axis-aligned edge that passes is free of collisions at every real point of the up, across and down motion |
| Sweep.AnyEdgeSweepsNarrowed | node-bot/runtime/localNavigation.ts:106-118 | on any edge that passes, a body narrowed by a sixteenth of the displacement meets nothing anywhere on the crossing |
| Sweep.SweepCoveredIffAligned | node-bot/runtime/localNavigation.ts:106-118 | the samples cover the motion in every world if and only if the edge is axis-aligned, even among worlds whose boxes all have a volume |
| ShortestPath.EstimateIsAdmissible | node-bot/runtime/localNavigation.ts:160-163 | a consistent estimate never exceeds what is left of any path |
| ShortestPath.WaitingOnPath | node-bot/runtime/localNavigation.ts:139-165 | every path from the origin has a point, scored no higher than the path's cost so far, that waits in the open list, unless its end was expanded |
| ShortestPath.GoalIsCheapest | node-bot/runtime/localNavigation.ts:140-150 | the first goal node popped is no dearer than any admissible path to the goal region |
| ShortestPath.PoppedIsCheapest | node-bot/runtime/localNavigation.ts:140-144 | with a consistent estimate a popped node has the cheapest way to its point, so no point is expanded twice |
| ShortestPath.NothingOpenMeansAllClosed | node-bot/runtime/localNavigation.ts:139-166 | an empty open list means that the end of every admissible path was expanded |
| ShortestPath.NothingOpenMeansNoRoute | node-bot/runtime/localNavigation.ts:139-166 | an empty open list means that no admissible path reaches the goal region |
| RouteSearch.EstimateIsConsistent | node-bot/runtime/localNavigation.ts:160-163 | the distance left less the stop distance, floored at zero, drops by no more than a step costs, with non-negative penalties |
| RouteSearch.Relax | node-bot/runtime/localNavigation.ts:159-163 | an admissible step is scored no higher than through this node, and stale entries and all other scores keep their meaning |
| RouteSearch.Expand | node-bot/runtime/localNavigation.ts:151-165 | unless reads run out, every admissible step out of the node is settled, own-cell centring included |
| RouteSearch.SelectLeast | node-bot/runtime/localNavigation.ts:140-141 | picks the first open node of least estimate |
| RouteSearch.StaleIsDropped | node-bot/runtime/localNavigation.ts:143 | skipping an entry whose score was improved since loses nothing |
| RouteSearch.NoneBetterWith | node-bot/runtime/localNavigation.ts:147-149 | the fallback is, after each expansion, the expanded frontier point of most progress, the first of them, or the origin |
| RouteSearch.PoppedOnce | node-bot/runtime/localNavigation.ts:140-144 | a node that is not outdated is of a point not expanded before |
| RouteSearch.DecidedPlan | node-bot/runtime/localNavigation.ts:139-166 | if the points that can be reached are fewer than 2048, or the cap was not hit, a plan reaches the goal exactly if there is a route |
| RouteSearch.Unwind | node-bot/runtime/localNavigation.ts:167-168 | the path is the chain of parents, the origin left out |
| RouteSearch.PlanLocalRoute | node-bot/runtime/localNavigation.ts:130-170 | sound paths without repetition, cheapest when reached, frontier with strictly better progress or empty otherwise; expanded and frontierCandidates count distinct points that can be reached; on fresh terrain the reads never run out; with the clock in time and fewer than 2048 points in reach it reaches the goal exactly if there is a route, and otherwise no frontier point makes more progress than its end |
| RouteSafety.StepsEndCentred | node-bot/runtime/localNavigation.ts:151-155 | every step of a route ends at the centre of a cell |
| RouteSafety.CentredStepsAreStraight | node-bot/runtime/localNavigation.ts:151-155 | from a centre a step goes straight by exactly one block |
| RouteSafety.PlannedRouteSweeps | node-bot/runtime/localNavigation.ts:130-170 | every step after the first is swept in full, the first too if axis-aligned, and every step for a body narrowed by 3/32 |
| RouteSafety.PlannedPlaceIsSafe | node-bot/runtime/localNavigation.ts:130-165 | every place of a route is within 12 blocks to each side and 6 in height, not near a hostile, with every cell the body is in known, harmless and free, on a support within 0.08, a step of at most 1.5 across and 1.001 up or down away, over an edge that did not fail before |
| RouteSafety.StandableIff | node-bot/runtime/localNavigation.ts:57-103 | standing and a clear body told as inequalities on shapes, both ways: a body 0.6 wide and 1.8 high less a thousandth on each side, a support within 0.08 |
| RouteSafety.EdgeClearIff | node-bot/runtime/localNavigation.ts:106-118 | an edge passes exactly with a step of at most 1.5 across and 1.001 up or down, a landing to stand on, and room up, across and down at a height raised by 0.25 for a rise above 0.6 |
| RouteSafety.LimitsOfSearch | node-bot/runtime/localNavigation.ts:139-159 | what the search may step on: 12 blocks to each side, 6 in height, no hostile near, no failed edge; its frontier begins at 11 |
| RouteSafety.CostIsLengthAndVisits | node-bot/runtime/localNavigation.ts:160-163 | what the search makes cheapest is the length of the way and two more for each earlier visit to its places |
| RouteSafety.StepMeetsFence | node-bot/runtime/localNavigation.ts:151-165 | in that world every admissible step to among the carpets ends inside a fence |
| RouteSafety.PlanOverCarpets | node-bot/runtime/localNavigation.ts:130-170 | from free ground towards a goal among the carpets the search finds a plan unless it hits a limit, and every plan that reaches the goal ends inside a fence |
| MovementControl.HoldLasts | node-bot/runtime/movementControl.ts:3-8 | a hold survives everything others do until its own token is given back |
| MovementControl.ReleasedForGood | node-bot/runtime/movementControl.ts:7 | a stale or second release, at any later time, changes nothing |
| MovementControl.MovementLock.Acquire | node-bot/runtime/movementControl.ts:3-8 | hands out a fresh token exactly when nobody holds the bot |
| MovementControl.MovementLock.Release | node-bot/runtime/movementControl.ts:7 | frees the bot only if the token is the one that holds it |
| Navigation.RecordAttempt | node-bot/runtime/localNavigation.ts:307-308 | the blocked set is exactly the edges that failed, and none of them is tried again |
| Navigation.RecordVisit | node-bot/runtime/localNavigation.ts:309-313 | visit weights are four for each failure and one for each arrival at the cell |
| Navigation.WalkIsCounted | node-bot/runtime/localNavigation.ts:307-313 | failures and weights told by counting attempts: stuck and changed ones fail, and a place weighs four for each of them and one for each arrival |
| Navigation.FirstStep | node-bot/runtime/localNavigation.ts:293-298 | the first step of a plan is clear, safe and not among the blocked edges |
| Navigation.NextStep | node-bot/runtime/localNavigation.ts:283-299 | the verdict is the exact one: success exactly on observed safe ground within the stop distance, each error exactly under its condition, else the first step of a plan made for this pass, clear, safe and not blocked as observed in it |
| Navigation.WalkRoute | node-bot/runtime/localNavigation.ts:279-318 | each attempt is the first step of the plan of its pass, made with what failed and was visited before, and the walk ends exactly as described; at most 256 steps and 8 failures, no failed edge retried, errors thrown on the way included |
| Navigation.ArrivesIff | node-bot/runtime/localNavigation.ts:279-292 | a pass ends in success exactly when nothing is late, thrown or gone, and the bot stands on safe ground, no hostile near, within the stop distance of the target |
| Navigation.ErrorMeans | node-bot/runtime/localNavigation.ts:279-291 | the exact condition of each error that a pass can come to before it searches |
| Navigation.WalkErrorMeans | node-bot/runtime/localNavigation.ts:301-306 | the exact condition of each error that the walk of an edge can end with |
| Navigation.ResultMeans | node-bot/runtime/localNavigation.ts:279-318 | a navigation succeeds exactly if the pass after its last attempt finds the bot arrived, reaches the distance limit exactly after 256 steps, and has no path after eight failures or when a search found nothing |
| Navigation.NoPathMeans | node-bot/runtime/localNavigation.ts:293-299 | with the clock in time, a plan without a step means that there is no route and no better frontier point, unless 2048 points were expanded, which takes as many in reach |
| Navigation.NavigateLocally | node-bot/runtime/localNavigation.ts:261-320 | the same for the whole navigation; every exit, one by a thrown error included, gives the lock back, and a bot held by someone else is left untouched |
| AgentBridge.StepKeepsInvariant | node-bot/runtime/agentBridge.ts:52-340 | every atomic step keeps conservation, order, session liveness and queue liveness |
| AgentBridge.StepConserves | node-bot/runtime/agentBridge.ts:164-226 | each emitted event is acknowledged, in flight, queued or dropped, one of them and once, and the first three together are in emission order |
| AgentBridge.StepKeepsSession | node-bot/runtime/agentBridge.ts:52-118 | disconnected after a first session means a reconnect timer is armed, connected means a healthcheck of that very socket, a socket exists exactly when not disconnected |
| AgentBridge.StepKeepsQueue | node-bot/runtime/agentBridge.ts:164-226 | the queue stays within its limit, and one that is not empty has a timer or a flush that will look at it |
| AgentBridge.RunKeepsInvariant | node-bot/runtime/agentBridge.ts:52-340 | the invariant holds after every run |
| BridgeLaws.EmissionDropsOldest | node-bot/runtime/agentBridge.ts:164-177 | an emission into a full queue drops exactly one event, the oldest of those queued, and any other none; the new event is last |
| BridgeLaws.FailureDropsNewest | node-bot/runtime/agentBridge.ts:207-217 | of a batch that failed for good as much goes back in front as there is room, older than all that is dropped |
| BridgeLaws.OthersDropNothing | node-bot/runtime/agentBridge.ts:52-340 | no other step loses an event |
| BridgeLaws.TimerTakesOldest | node-bot/runtime/agentBridge.ts:190-206 | a flush starts exactly when none is in flight, events wait and the session is open, with the oldest of them, as many as a batch holds |
| BridgeLaws.AttemptsAreCounted | node-bot/runtime/agentBridge.ts:228-262 | a sent batch is acknowledged as a whole; a failed attempt is followed by another exactly until one more failed than there are retries |
| BridgeLaws.NextAttempt | node-bot/runtime/agentBridge.ts:238-262 | after the delay the same batch is tried again, counted once more, through the socket exactly if its session is open |
| BridgeLaws.TerminatedOnlyWhenLate | node-bot/runtime/agentBridge.ts:73-80 | a socket is terminated exactly when its connection, its answers or an attempt through it took too long |
| BridgeLaws.ConnectsOnlyWhenNeeded | node-bot/runtime/agentBridge.ts:52-118 | a new socket is made exactly when there is no session and an emission, a flush or the reconnect timer wants one |
| BridgeDelivery.Connect | node-bot/runtime/agentBridge.ts:52-118 | from every reachable state after the first session the bridge can become connected in at most three events without losing anything, a terminated socket closing first |
| BridgeDelivery.Deliver | node-bot/runtime/agentBridge.ts:190-262 | everything outstanding can be delivered from every reachable state that is not doomed |
| BridgeDelivery.DoomedRun | node-bot/runtime/agentBridge.ts:207-217 | a final attempt without a socket, with a batch that no longer fits back, costs an event however the run goes on |
| BridgeDelivery.DeliverableIffNotDoomed | node-bot/runtime/agentBridge.ts:190-262 | all outstanding events can still be acknowledged without a loss if and only if the state is not doomed |
| BridgeDelivery.DoomIsReachable | node-bot/runtime/agentBridge.ts:190-262 | with every configuration some run from the start ends in a doomed state |
| BridgeService.Service.Emit | node-bot/runtime/agentBridge.ts:124-177 | a new event is queued, with a flush scheduled and a session ensured; BridgeLaws.EmissionDropsOldest says what a full queue loses |
| BridgeService.Service.OnBatchTimer | node-bot/runtime/agentBridge.ts:184-225 | the batch timer starts a flush of at most batchMaxSize events, or ensures a session and tries later |
| BridgeService.Service.OnSendOk | node-bot/runtime/agentBridge.ts:240-246 | a batch that was sent is acknowledged as a whole |
| BridgeService.Service.OnSendFail | node-bot/runtime/agentBridge.ts:247-259 | a failed attempt backs off with a reconnect scheduled, the last one gives up |
| BridgeService.Service.OnBackoffOver | node-bot/runtime/agentBridge.ts:238-241 | after the delay the same batch is tried again |
| BridgeService.Service.OnCatch | node-bot/runtime/agentBridge.ts:207-217 | a failed batch goes back in front of the queue as far as it fits, oldest first |
| BridgeService.Service.OnFinally | node-bot/runtime/agentBridge.ts:218-223 | the flush ends and schedules another if events wait |
| BridgeService.Service.OnReconnectTimer | node-bot/runtime/agentBridge.ts:292-295 | the reconnect timer ensures a session |
| BridgeService.Service.OnConnectTimer | node-bot/runtime/agentBridge.ts:73-80 | the connect timeout terminates its socket |
| BridgeService.Service.OnOpen | node-bot/runtime/agentBridge.ts:82-88 | opening connects and starts the healthcheck of that socket |
| BridgeService.Service.OnClose | node-bot/runtime/agentBridge.ts:94-105 | closing cleans up and schedules a reconnect |
| BridgeService.Service.OnError | node-bot/runtime/agentBridge.ts:107-117 | an error cleans up and schedules a reconnect |
| BridgeService.Service.OnHealthTimer | node-bot/runtime/agentBridge.ts:316-339 | the healthcheck terminates a stale open session and leaves any other alone |
| BridgeService.Service.CleanupSession | node-bot/runtime/agentBridge.ts:298-309 | after a lost socket's cleanup the session is alive once a reconnect is scheduled; another socket's cleanup leaves session and socket alone; no event is touched |
| Cargo.CargoCounts | node-bot/runtime/forestry.ts:42-46 | counts exactly the kinds of cargo in the inventory, with their totals, each at most 2304 |
| Cargo.TotalBounded | node-bot/runtime/forestry.ts:33 | 36 stacks of 64 hold at most 2304 of a kind |
| Cargo.DeltaIsExcess | node-bot/runtime/forestry.ts:47-49 | storing the delta leaves each kind at its baseline or below, and an empty delta means nothing exceeds it |
| Cargo.ReloadsIff | node-bot/runtime/forestry.ts:25-35 | a saved record passes the checks of loading if and only if the position at the trip's opening was finite |
| Cargo.UnknownOpeningIsRefused | node-bot/runtime/forestry.ts:30-33 | a record saved with a position that was not finite is refused, and with a finite one in its place it loads |
| StoredRecord.RecordFits | node-bot/runtime/forestry.ts:28-38 | the text of a record never exceeds 32768 characters, with a dimension name of at most 4000 |
| WoodLog.StopIsFinal | node-bot/runtime/forestry.ts:107-122 | in a lawful log nothing is dug, opened or deposited between a stop, a death or a disconnection and the next start |
| WoodLog.OneTripAtATime | node-bot/runtime/forestry.ts:127-160 | between two starts of trips there is an end or a restart |
| WoodLog.DigsWithinLimit | node-bot/runtime/forestry.ts:203-208 | a trip digs no more logs than the amount asked for, a return none |
| WoodLog.DugWhenGranted | node-bot/runtime/forestry.ts:241-243 | in a lawful log each dig directly follows a grant for that very log, with no wait in between |
| WoodLog.GrantedWhenAllowed | node-bot/runtime/forestry.ts:200-206 | every log granted or dug is among those of an answer of the guard that allowed it during the same trip |
| WoodLog.GrantsAreReaped | node-bot/runtime/forestry.ts:200-206 | the logs granted to a trip are, in order, a first part of those of the allowed answers that fit in what was left of the amount |
| WoodLog.ReapedInOrder | node-bot/runtime/forestry.ts:201-205 | an allowed answer has all its logs among those to fell if they fit in what is left, behind those of the answers before it, and never do they exceed the amount |
| WoodLog.ReapedIsAllowed | node-bot/runtime/forestry.ts:201-203 | a log to fell comes from an answer that allowed it |
| WoodLog.OwedUntilClosed | node-bot/runtime/forestry.ts:185-284 | what is dug stays owed, with its baseline, until a settlement or a reset |
| WoodService.Service.Dispatch | node-bot/runtime/forestry.ts:115-160 | before its first wait a command hands out work only to the owner and only when none is under way; a stop of the owner is accepted even then and logged, and anything else that starts no work changes nothing; a trip starts with its flags cleared and its amount in 1 to 64 |
| WoodService.Service.Choose | node-bot/runtime/forestry.ts:128-157 | collecting needs a record that is not pending, a return one that is, and a new base none that is |
| WoodService.Service.Await | node-bot/runtime/forestry.ts:164-284 | a wait lets commands, deaths and the world in and leaves record, disk and books alone |
| WoodService.Service.Save | node-bot/runtime/forestry.ts:36-40 | however saving ends the disk has the old record or the new one, and the new one on success |
| WoodService.Service.Check | node-bot/runtime/forestry.ts:108 | passes exactly when neither stopped nor interrupted nor elsewhere, with health and food of six or more |
| WoodService.Service.AskGuard | node-bot/runtime/forestry.ts:60-75 | asking for leave to dig, which only the next log of an allowed answer may be asked for, enters a grant for it exactly when an allowed answer arrives; any answer to a question without leave is entered |
| WoodService.Service.Preview | node-bot/runtime/forestry.ts:174-183 | success means the chest was opened; on every exit the movement lock is given back unless the process died, and neither record nor disk changed |
| WoodService.Service.OpenRecord | node-bot/runtime/forestry.ts:185 | the opened record is pending, with exactly the cargo in the inventory as its baseline and the position as it was read, and would load again exactly if that was finite |
| WoodService.Service.SetOut | node-bot/runtime/forestry.ts:173-211 | on every exit, if anything was dug then the trip is open on disk with its baseline, and the record there loads exactly if the position at the opening was finite; success means that exactly the logs of the allowed answers that fit were felled |
| WoodService.Service.Gather | node-bot/runtime/forestry.ts:187-210 | what was felled is exactly what the answers allow within the amount, or a first part of it after a failure; success comes only after all thirteen places or with time, strength, room, trail or amount used up; on every exit the trail has at most 60 places |
| WoodService.Service.GatherAround | node-bot/runtime/forestry.ts:197-209 | for the candidates around one place each allowed answer that fits has all its logs felled, in order, and no other any; short of the amount every candidate was asked about, known from an answer, or passed over for want of time, slots or trail |
| WoodService.Service.TryTree | node-bot/runtime/forestry.ts:199-208 | one candidate: asked about, and felled exactly if the answer allows it and its logs fit |
| WoodService.Service.Enough | node-bot/runtime/forestry.ts:192 | looking goes on exactly with time, health and food of twelve, three free slots, trail and amount left |
| WoodService.Service.Harvest | node-bot/runtime/forestry.ts:227-247 | on every exit nothing but a first part of the given logs was granted and dug, in order, and the movement lock is free unless the process died |
| WoodService.Service.Fell | node-bot/runtime/forestry.ts:237-246 | success means each log was granted and dug, in order; on every exit no more than a first part of that happened |
| WoodService.Service.FellOne | node-bot/runtime/forestry.ts:238-245 | one log: checked, granted by the guard, checked again and dug, or an exit on the way |
| WoodService.Service.StartDig | node-bot/runtime/forestry.ts:241-243 | needs the guard's grant for this log as the last thing that happened and no stop since; the baseline is owed from then on |
| WoodService.Service.Audit | node-bot/runtime/forestry.ts:263-265 | storing goes on only if nothing of the baseline is missing |
| WoodService.Service.Deposit | node-bot/runtime/forestry.ts:277 | a deposit moves at most the count of its kind from the inventory to the chest, whether or not it reports success |
| WoodService.Service.Move | node-bot/runtime/forestry.ts:274-279 | a deposit that starts leaves at least the baseline of its kind |
| WoodService.Service.StoreOne | node-bot/runtime/forestry.ts:273-281 | after one kind, the baseline and what is still to be stored are there unless the bot died |
| WoodService.Service.Store | node-bot/runtime/forestry.ts:271-282 | success means nothing above the baseline is left, and exactly the baseline unless the bot died |
| WoodService.Service.WalkHome | node-bot/runtime/forestry.ts:258-262 | the way home succeeds only over a trail without missing places |
| WoodService.Service.Settle | node-bot/runtime/forestry.ts:284 | the books that close show the chest's gain equal to what was taken up since the baseline, over all crashes and retries in between |
| WoodService.Service.ReturnAndStore | node-bot/runtime/forestry.ts:257-286 | success means a record closed in memory and on disk; a failure leaves it open as it was, unless the last write failed, when it is closed in memory; the disk has what it had, the open record or the closed one |
| WoodService.Service.Travel | node-bot/runtime/forestry.ts:167-226 | a trip, its way home after a failure included, keeps every invariant and ends idle or blocked with busy and the movement lock free; what it felled is a first part of what the guard's answers allow within the amount |
| WoodService.Service.Recover | node-bot/runtime/forestry.ts:213-220 | after a failure the bot heads home exactly if it was collecting, on its way out, not stopped, present, with the trip open and the failure not one of nine that forbid it |
| WoodService.Service.Register | node-bot/runtime/forestry.ts:135-148 | a new base with nothing open is in memory and on disk, or the record is what it was |
| WoodService.Service.Forget | node-bot/runtime/forestry.ts:128-134 | a reset leaves nothing pending, no baseline and no trail, in memory and on disk, or the service refuses work until a restart |
| WoodService.Service.Restart | node-bot/runtime/forestry.ts:23-35 | a new process has its record back exactly if the file can be read and the trip on it, if any, was opened at a finite position |
| WoodService.Service.Live | node-bot/runtime/forestry.ts:93-286 | over any sequence of commands, crashes and restarts the log is lawful, what is owed is open on disk with its baseline, and the inventory is what was taken up less what was stored |
| NaturalWood.Ledger.Record | bridge-plugin/src/main/java/com/example/bridge/forestry/NaturalWoodLedger.java:10-18 | takes exactly columns of three to six logs, while there is room |
| NaturalWood.Ledger.InvalidateNear | bridge-plugin/src/main/java/com/example/bridge/forestry/NaturalWoodLedger.java:20-24 | forgets as a whole every tree with a log near the block, and no other |
| NaturalWood.ColumnFromBase | bridge-plugin/src/main/java/com/example/bridge/forestry/NaturalWoodLedger.java:12-14 | the tests against the lowest log decide exactly whether the logs are a column |
| TreeInspection.ScanColumn | bridge-plugin/src/main/java/com/example/bridge/forestry/ForestryGuard.java:82-93 | one column passes exactly when every block of it is loaded, unclaimed, and a log of the tree, a natural leaf or soft; else the first that does not gives the reason |
| TreeInspection.ScanBox | bridge-plugin/src/main/java/com/example/bridge/forestry/ForestryGuard.java:80-94 | the same for the whole box, in the order of the scan, with the standing logs found from below |
| TreeInspection.Inspect | bridge-plugin/src/main/java/com/example/bridge/forestry/ForestryGuard.java:71-96 | allowed if and only if the log is in range, recorded, and its tree and surroundings are natural, else with the reason that applies; the list is the standing logs, highest first |
| TreeInspection.ApprovedList | bridge-plugin/src/main/java/com/example/bridge/forestry/ForestryGuard.java:95-101 | an approved list has one to six logs, the one asked about among them, all within five blocks, as the client's validation of an answer requires |
| TreeInspection.ApprovedSurroundings | bridge-plugin/src/main/java/com/example/bridge/forestry/ForestryGuard.java:71-95 | an approved tree has three to six logs within 24 blocks of the bot, natural ground below, a natural leaf beside it, and in five by five columns from its foot to two above its top nothing but its logs, natural leaves and soft plants, all loaded and unclaimed |
| TreeInspection.ReachMeans | bridge-plugin/src/main/java/com/example/bridge/forestry/ForestryGuard.java:97-99 | in reach is within four and a half blocks from the eyes to the middle of the log |
| TreeInspection.CutFromTheTop | bridge-plugin/src/main/java/com/example/bridge/forestry/ForestryGuard.java:96-98 | once the first log is struck from the ledger the list is its rest |
| TreeInspection.ApprovedAfterCut | bridge-plugin/src/main/java/com/example/bridge/forestry/ForestryGuard.java:57-102 | once the first log of an approved list is cut and struck from the ledger, the next one, in range, is approved with the rest of the list, so cutting in order always asks for the highest log |
| ForestryGuard.BreakUsesGrant | bridge-plugin/src/main/java/com/example/bridge/forestry/ForestryGuard.java:57-62 | a guarded player gets through a break exactly if it has a grant for that very block, at most ten seconds old and used by nothing since, and an approval at the break |
| ForestryGuard.GrantBacksOnce | bridge-plugin/src/main/java/com/example/bridge/forestry/ForestryGuard.java:60 | no grant backs two breaks |
| ForestryGuard.Guard.Release | bridge-plugin/src/main/java/com/example/bridge/forestry/ForestryGuard.java:31-32 | release and quitting end guard and permit |
| ForestryGuard.Guard.Inspect | bridge-plugin/src/main/java/com/example/bridge/forestry/ForestryGuard.java:69-102 | asking for a grant puts the player under guard whatever the answer, and a permit is handed out exactly for an approved, reachable, highest log |
| ForestryGuard.Guard.Breaking | bridge-plugin/src/main/java/com/example/bridge/forestry/ForestryGuard.java:57-62 | a guarded break uses up the permit and goes through exactly when it is for this block, in time and the tree still sound |
| ForestryGuard.Guard.Broken | bridge-plugin/src/main/java/com/example/bridge/forestry/ForestryGuard.java:63-68 | a guarded break strikes the log from the ledger, any other forgets the trees around |
| ForestryGuard.Guard.Changed | bridge-plugin/src/main/java/com/example/bridge/forestry/ForestryGuard.java:47-56 | of the recorded trees exactly those without a log near a changed block remain |
| ForestryGuard.Guard.GrowthSettled | bridge-plugin/src/main/java/com/example/bridge/forestry/ForestryGuard.java:36-46 | a tree is recorded exactly when nothing changed since it was announced and the world shows all of its logs |
| Building.RestoreCheckpoint | python/services/building_service.py:60-91 | unknown phases, unusable reservations and counts fall back to safe values |
| Building.RestoredDumpIsCanonical | python/services/building_service.py:42-91 | writing out and reading back drops only what is not above zero, and doing it again changes nothing |
| Building.PlanMaterialProcurement | python/services/building_service.py:100-119 | the loop computes the shortage of every usable requirement |
| Building.SynchronizeReservedMaterials | python/services/building_service.py:295-312 | the loop computes the reservation of every usable requirement |
| Building.NormalizeLayout | python/services/building_service.py:245-269 | usable entries become tasks, in order |
| Building.NormalizedTwice | python/services/building_service.py:147-149 | normalizing a normalized layout changes nothing |
| Building.PlanBlockPlacement | python/services/building_service.py:122-134 | the batch and the count after it, both clamped to the layout |
| Building.AdvanceBuildingState | python/services/building_service.py:137-175 | one advance computes plan, batch, phase, reservations and count as the function used in the runs, which BuildingMeaning tells from the inputs |
| BuildingMeaning.PhaseAfterAdvance | python/services/building_service.py:137-205 | after an advance the phase is procurement exactly if some usable requirement exceeds stock and reservation, else placement exactly if blocks are left, else inspection exactly if there are any or it was inspecting, else survey |
| BuildingMeaning.MaterialsOfAdvance | python/services/building_service.py:100-175 | for each usable requirement the plan asks for what exceeds stock and reservation, and the reservation grows by the stock up to the requirement |
| BuildingMeaning.BatchOfAdvance | python/services/building_service.py:122-134 | the batch is the next blocks of the layout, at least one and at most the batch size of those left, and the count moves past it |
| BuildingMeaning.RollbackLeadsTo | python/services/building_service.py:208-242 | which phase a rollback leads to from each phase, what it takes off the count and which reservations stay |
| BuildingMeaning.RestoredReads | python/services/building_service.py:60-91 | what is read back from each part of a stored checkpoint |
| BuildingMeaning.NormalizedAt | python/services/building_service.py:245-269 | each usable entry is the task at the place counted by the usable ones before it, with its block and its three coordinates, and there are no others |
| BuildingRuns.InStepIffUndoable | python/services/building_service.py:208-242 | what stands stays the counted part of the layout through every action, a rollback exactly when it takes back one batch or the batch was all there was |
| BuildingRuns.AdvancesPlaceInOrder | python/services/building_service.py:122-175 | k advances with restarts anywhere and any inventories place k batches more, each block once and in order, and all of them after N / b rounded up |
| BuildingRuns.RollbackReissuesIff | python/services/building_service.py:208-242 | rolling back a batch restores the count exactly when the rollback starts from placement or inspection or nothing was placed before, and the next advance then issues the same batch |
| BuildingRuns.UnnamedRollbackAfterShortage | python/services/building_service.py:188-231 | without a named phase the batch alone is taken back exactly when nothing was short |
| BuildingRuns.RollbackIgnoresRestart | python/services/building_service.py:208-242 | rolling back a restored checkpoint is rolling back the original |
| BuildingRuns.RestartsAreInvisible | python/services/building_service.py:42-175 | whatever restarts come in between, plans, batches and phases are the same |
| BuildingRuns.ProcurementIdentity | python/services/building_service.py:100-119 | planned procurement and new reservation add up to the requirement, and reservations within it never shrink |
| BuildingRuns.PlanCoversShortageIff | python/services/building_service.py:113-118 | the plan asks for what the inventory lacks exactly when nothing is reserved or the inventory suffices |
| BuildingRuns.ReservationsAccumulate | python/services/building_service.py:137-175 | from a new checkpoint, n advances with the same inventory reserve n times the stock, up to the requirement |
| BuildingRuns.ShortageVanishesIff | python/services/building_service.py:137-175 | the advance after n such advances procures nothing of a material exactly when n + 1 times the stock reaches the requirement |
| ChatQueue.StepCounts | python/runtime/chat_queue.py:61-128 | the unfinished counter is the queue's length plus the task in hand, so task_done never underflows |
| ChatQueue.StepPlaces | python/runtime/chat_queue.py:48-146 | every task is with a caller, queued once, in hand or ended, in exactly one of them |
| ChatQueue.StepBounds | python/runtime/chat_queue.py:48-118 | the queue stays within its bound and a task starts once per retry and once more, at most the retry limit plus one times |
| ChatQueue.StepKeepsLine | python/runtime/chat_queue.py:55-102 | the line of those waiting for room holds each once, and no wake-up is lost: while anyone in it sleeps, all room there is belongs to those who were woken |
| ChatQueue.RunKeepsInvariant | python/runtime/chat_queue.py:48-146 | all of it after every run |
| ChatQueueOrder.LeaveInOrder | python/runtime/chat_queue.py:48-129 | over any run what is left of the queued tasks are the last of them, in order, ahead of everything queued since |
| ChatQueueOrder.FirstInFirstOut | python/runtime/chat_queue.py:48-129 | a queued task is gone only if all that joined before it have left, unless it was put back |
| ChatQueueOrder.OldestGoes | python/runtime/chat_queue.py:48-75 | the worker takes the task longest in the queue, and a message to a full queue drops that one |
| ChatQueueOrder.WhyEnded | python/runtime/chat_queue.py:69-129 | processed, crashed, timed out and overflowed each have their one cause |
| ChatQueueOrder.RetriedWhileAllowed | python/runtime/chat_queue.py:98-110 | a timed-out task is tried again exactly while it has retries left |
| ChatQueueProgress.StuckIffWaitsForItself | python/runtime/chat_queue.py:98-106 | standing still with work left means exactly that the worker waits for room in a full queue |
| ChatQueueProgress.GoesOnIff | python/runtime/chat_queue.py:48-106 | after a standstill, while everyone woken looks for room before anything else happens, the worker goes on if and only if more messages came in than there were callers ahead of it; until then each moves it up by one |
| ChatQueueProgress.NeverEnough | python/runtime/chat_queue.py:48-106 | without that, for any number of messages there is a run in which as many come in and the worker still waits |
| ChatQueueProgress.GetStuck | python/runtime/chat_queue.py:98-146 | a standstill with any number of callers ahead of the worker can be reached |
| ChatQueueProgress.StandstillIff | python/runtime/chat_queue.py:98-146 | a standstill with work left can be reached if and only if the queue is bounded and timed-out tasks are retried |
| ChatService.Service.EnqueueChat | python/runtime/chat_queue.py:48-59 | a new task is queued, or its caller waits after the oldest task was dropped |
| ChatService.Service.HandleQueueOverflow | python/runtime/chat_queue.py:120-129 | queue and unfinished counter shrink together by the oldest task, so the accounting still adds up and a full queue has room |
| ChatService.Service.TakeTask | python/runtime/chat_queue.py:69-75 | the worker takes the oldest task |
| ChatService.Service.ProcessingEnded | python/runtime/chat_queue.py:76-81 | a task that was processed, or failed, is done |
| ChatService.Service.ProcessingTimedOut | python/runtime/chat_queue.py:82-110 | a timed-out task is retried up to the limit, for which the oldest may go, else it is skipped |
| ChatService.Service.WorkerToldOverflow | python/runtime/chat_queue.py:100-106 | after the notice the task is put back, or the worker waits in line for room |
| ChatService.Service.Resume | python/runtime/chat_queue.py:55-102 | the first in line, when woken, puts its task if there is room, and goes to the end of the line if not |
| ChatService.Service.WorkerToldSkip | python/runtime/chat_queue.py:107-118 | a task out of retries ends as timed out and is done |
| Reflection.RecoveryKeeps | python/memory.py:137-201 | since loading, a reflection is pending exactly if it is the active one, after any task |
| Reflection.RecoveryChain | python/orchestrator/recovery_coordinator.py:59-196 | a task leaves one reflection per halted attempt, all but the last failed, the last judged by the attempt after it; earlier ones change only if active |
| Reflection.NextTaskDecides | python/orchestrator/plan_executor.py:231-237 | a pending reflection becomes a success exactly if the next task's first plan runs without a failed step, and stays pending exactly if that plan pauses or is empty |
| Reflection.LeftWithoutErrors | python/orchestrator/plan_executor.py:77-243 | without an error a task leaves the record of the whole recovery |
| PlanExecutor.Memory.BeginReflection | python/memory.py:137-169 | a fresh reflection is pending and active |
| PlanExecutor.Memory.FinalizePendingReflection | python/memory.py:171-201 | the active reflection gets its result and none is active after |
| PlanExecutor.Executor.Walk | python/orchestrator/plan_executor.py:86-217 | the first step that ends a plan decides how, and clean means that no handled step failed |
| PlanExecutor.Executor.Run | python/orchestrator/plan_executor.py:77-243 | running, recovering and replanning terminate, finish exactly if none of the errors that can come on the way does, ask for no more plans than the limit leaves, and leave exactly the record described, up to the first error if there is one |
| PlanExecutor.Executor.HandleFailure | python/orchestrator/recovery_coordinator.py:59-141 | the reflection before is closed as failed and one on this failure is opened before trying again; each error leaves what was done before it |
| PlanExecutor.Executor.RequestReplan | python/orchestrator/recovery_coordinator.py:143-196 | another plan is asked for exactly below the limit, and run exactly if asking raises no error |
| PlanExecutor.RequestsAreHalts | python/orchestrator/recovery_coordinator.py:153-159 | plans are asked for once per halt, save the one that finds the limit reached |
| TunnelGeometry.GenerateWindow | python/modes/tunnel_geometry.py:16-64 | lists the cells of a window, or fails for a direction that is not horizontal and straight |
| TunnelGeometry.CellsEnumerate | python/modes/tunnel_geometry.py:39-49 | the cells of n slices are each listed once and nothing else is |
| TunnelGeometry.WindowIsSlice | python/modes/tunnel_geometry.py:39-49 | a window of k slices at step s is the part from s*w*h to (s+k)*w*h of the whole enumeration |
| TunnelGeometry.TorchInTunnelIff | python/modes/tunnel.py:149-164 | a torch stands inside the tunnel exactly if it runs towards smaller coordinates and is at least two wide and two high |
| TunnelMode.BuildMiningMask | python/heuristics/artificial_filters.py:64-89 | a cell is marked exactly when judged in the region, neither liquid nor near a functional block, natural, and by the last answer about it not placed by a player |
| TunnelMode.DetectHardStop | python/modes/tunnel.py:166-178 | reports the first offence, and none exactly when there is none |
| TunnelMode.Look | python/modes/tunnel.py:81-112 | a step goes on exactly when both answers came and none calls for a stop, with exactly the cells of the window that may be mined and are not air, in order; else it ends as the first trouble demands |
| TunnelMode.Advance | python/modes/tunnel.py:80-131 | the run ends exactly as described, in the step that does not work or by the server's word on the last; what is mined is what the steps done picked, in order, and every step done was evaluated and cleared |
| TunnelMode.Run | python/modes/tunnel.py:44-134 | the same for a started job; the server hears one advance for every step done and then one stop, however the run ends, and of no other job anything |
| TunnelMode.EndMeans | python/modes/tunnel.py:80-131 | a run is complete exactly if every step of its length went on, and finished exactly if the server said so after a step that worked with nothing amiss before |
| TunnelMode.LitEvery | python/modes/tunnel.py:114-118 | n steps place n / interval torches, one at the end of every interval, and none without an interval |
| TunnelMode.MiningIsJustified | python/modes/tunnel.py:104-113 | with answers about the cells asked about, in their order, everything mined was judged in the region, neither liquid nor near a functional block, natural, not air and not placed by a player, by the answers of its own step, in a window without an offence |
| TunnelMode.EvidenceIsOwnIff | python/modes/tunnel.py:104-113 | whatever a reply about given cells says, every cell mined on it was itself judged fit, if and only if those cells are the window's, in its order |
| TunnelMode.MisorderedIsNot | python/modes/tunnel.py:111-113 | a reply that has another cell in some place can mine the cell of that place with no evaluation that says it may be |
| TunnelMode.NothingPassedOver | python/modes/tunnel.py:111-113 | every cell of a cleared window that may be mined is mined at that step |
| TunnelMode.MinedInTunnel | python/modes/tunnel.py:81-113 | whatever is mined lies in the tunnel, within its length |
| TunnelMode.WholeRunCoversIff | python/modes/tunnel.py:80-119 | a run through the whole length has evaluated every cell exactly if the window reaches ahead at all |

## Left out

- Floating-point rounding: coordinates are exact reals, and the loop that adds 0.2 uses exact multiples.
- Square roots: `Math.hypot` is any function that squares back to its argument; comparisons with constants are made on squares.
- The physics of walking a single edge (`walkLocalStep`): only its outcomes are modelled, with what others do meanwhile.
- Names that make a block hazardous and tests for hostile mobs: flags and predicates given from outside.
- The wire, files and JSON parsing: sends, saves and reads succeed, fail or crash.
- StoredRecord.RecordFits: a dimension name of more than 4000 characters is not covered, and numbers are taken to need at most 25.
- The call that stops a tunnel job is assumed to reach the server.
- Delivery is at most once per attempt in the model; whether a receiver sees a batch twice after a lost acknowledgement is not modelled.
- Creating a socket is assumed not to throw.
- A region lookup that fails counts as a claimed region, which gives the same answer.
- WoodService.Service.Deposit: a deposit that timed out is assumed not to go on moving items after its failure was reported.
- WoodService.Service.Drift: while the chest is open cargo is lost only by dying; elsewhere it may change in any way.
- Distances, times and free slots of a wood trip that only choose where to go are arbitrary choices.
- The identity of recorded trees: they are compared by value; two equal trees recorded apart never coexist in the ledger, because the later one takes all entries.
- Overflow of the clock in milliseconds.
- ChatService.Service.EnqueueChat: notices to players are assumed to be sent without error, and neither callers nor the worker are cancelled while they wait.
- The queue of Python's asyncio library: those who wait to put are woken one for each task taken out, in the order they began to wait, run in that order, and wait anew at the end when the queue is full again.
- Two tasks running plans at the same time: the chat worker runs one at a time.
- Texts of reflections, prompts and their order by time; plans come from outside.
- TunnelMode.MiningIsJustified: answers are taken to be about the cells asked about, in their order; TunnelMode.EvidenceIsOwnIff says what depends on it.
- The list of natural block names: a flag of the evaluation.
- Telemetry, logging, roles, perception, keyword classification, skills, settings and their clamping: plumbing without a property of its own here.
