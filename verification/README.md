# Demand instantiation and the simulation orchestrator, modelled in Dafny

This project models two parts of the traffic simulator.

**Scenario instantiation** (`editor/src/plugins/sim/new_des_model/scenario.rs`)
turns a scenario into parked cars and scheduled trips:

- `seed_parked_cars` gives each building of a neighbourhood a sampled number
  of cars. A breadth-first search from the building's road
  (`find_spot_near_building`) picks the road whose free spot the car takes.
  The search stays inside the neighbourhood's roads. The model proves that
  the road is reachable from the building's road. It does not prove that it
  is the nearest such road (see "## Left out").
- `SpawnOverTime` agents leave a random building of a neighbourhood. An agent
  drives one of its building's parked cars if an unreserved one is left.
  Otherwise it bikes with probability `percent_biking`. Otherwise it walks or
  takes transit. Goals are resolved by `pick_driving_goal`,
  `pick_biking_goal` and `pick_walking_goal`.
- `BorderSpawnOverTime` agents enter at a border intersection. Each mode is
  spawned only if the border has a lane for it.
- An undefined neighbourhood, an empty building list or an empty time window
  is a panic. Here it is a `Fatal` outcome.

**The orchestrator** (`sim/src/sim.rs`) owns the clock, the vehicle-id
counter, the debugged car and three movement subsystems (driving, parking,
walking). It routes lane and turn edits to those subsystems. It seeds and
starts parked cars, steps time and answers car-state queries.

Modules, in dependency order:

| module | file | contents |
|---|---|---|
| `Common` | common.dfy | `Option`, ids, lane types, sequence helpers |
| `Oracle` | rng.dfy | the random stream as an oracle: draws, forks, `choose`, `gen_bool`, `gen_range`, `shuffle`, weighted sampling |
| `MapModel` | map_model.dfy | the map as a record of functions (lane types, lengths, parking slots, adjacent roads, border lanes, transit) |
| `DesSim` | des_sim.dfy | the parts of the new discrete-event simulation that instantiation calls: free spots, cars by owner, `seed_parked_car`, `schedule_trip` |
| `Sampling` | sampling.dfy | `rand_car`, `rand_bike` |
| `Goals` | goals.dfy | `pick_*_goal` |
| `Parking` | parking.dfy | `find_spot_near_building` |
| `Seeding` | seeding.dfy | `seed_parked_cars` |
| `Instantiation` | scenario.dfy | `Scenario::instantiate` |
| `Orchestrator` | sim.dfy | `Sim` of sim.rs |

## Model

| member | source | states |
|---|---|---|
| Oracle.ChooseIndex | editor/src/plugins/sim/new_des_model/scenario.rs:108-111 | `choose` on a non-empty slice yields an index inside it and consumes exactly one draw of the same stream |
| Oracle.GenBool | editor/src/plugins/sim/new_des_model/scenario.rs:131 | `gen_bool(p)` is never true at p = 0 and always true at p = 1; it consumes one draw |
| Oracle.RandRange | editor/src/plugins/sim/new_des_model/scenario.rs:502-504 | `rand_time` yields a value in [low, high); the range is empty (a panic) exactly when high <= low |
| Oracle.Shuffle | editor/src/plugins/sim/new_des_model/scenario.rs:411 | the shuffled stack is a permutation of the spots |
| Oracle.Sample | editor/src/plugins/sim/new_des_model/scenario.rs:419 | a weighted choice only yields a value of positive weight |
| Sampling.RandCar | editor/src/plugins/sim/new_des_model/scenario.rs:506-513 | a random car is of type Car, has no speed limit, and its length lies in [MIN_CAR_LENGTH, MAX_CAR_LENGTH) |
| Sampling.RandBike | editor/src/plugins/sim/new_des_model/scenario.rs:515-523 | a random bike is typed Bus, is limited to 10 mph, and its length lies in [MIN_BIKE_LENGTH, MAX_BIKE_LENGTH) |
| DesSim.FreeSlots | editor/src/plugins/sim/new_des_model/scenario.rs:406-408 | a lane's free spots are exactly its unoccupied slots, each listed once |
| DesSim.OwnedBy | editor/src/plugins/sim/new_des_model/scenario.rs:114-117 | the cars a building owns are exactly the parked cars whose owner is that building |
| Goals.PickBuilding | editor/src/plugins/sim/new_des_model/scenario.rs:315-317 | a building of the named neighbourhood; an undefined name or an empty building list is fatal, and nothing else is |
| Goals.NeighborhoodPanic | editor/src/plugins/sim/new_des_model/scenario.rs:315-317 | a neighbourhood lookup panics exactly when the name is undefined or its building list is empty, naming it, and undefined exactly when it is not in the map |
| Goals.GoalPanic | editor/src/plugins/sim/new_des_model/scenario.rs:307-382 | a goal panics exactly when it is a neighbourhood that is undefined or has no buildings, naming it; a border never panics |
| Goals.PickDrivingGoal | editor/src/plugins/sim/new_des_model/scenario.rs:307-332 | a neighbourhood gives parking near one of its buildings; a border gives its first incoming driving lane and is unresolved exactly when it has none; it fails exactly when `GoalPanic` names an undefined or empty goal neighbourhood, with that panic |
| Goals.PickBikingGoal | editor/src/plugins/sim/new_des_model/scenario.rs:335-360 | as for driving, except that a border prefers its first incoming biking lane and falls back to its first incoming driving lane; unresolved exactly when it has neither; it fails exactly with `GoalPanic`'s panic |
| Goals.PickWalkingGoal | editor/src/plugins/sim/new_des_model/scenario.rs:362-382 | a neighbourhood gives the front door of one of its buildings; a border gives its sidewalk end and is unresolved exactly when it has none; it fails exactly with `GoalPanic`'s panic |
| Goals.BikingFallsBackToDriving | editor/src/plugins/sim/new_des_model/scenario.rs:346-358 | at a border, a bike resolves whenever a car does, and to the same lane when there is no biking lane |
| Parking.ReachableExtend | editor/src/plugins/sim/new_des_model/scenario.rs:488-494 | a neighbourhood road next to a reachable road is reachable |
| Parking.WalkStaysIn | editor/src/plugins/sim/new_des_model/scenario.rs:479-495 | a walk from a searched road along neighbourhood roads never leaves a fully expanded searched set |
| Parking.ClosedContainsReachable | editor/src/plugins/sim/new_des_model/scenario.rs:479-495 | when the frontier is empty, every road reachable through the neighbourhood has been searched |
| Parking.FindSpotNearBuilding | editor/src/plugins/sim/new_des_model/scenario.rs:456-496 | locality: the building's own road is tried first. The search is confined to roads reachable through the neighbourhood. On success exactly one stack loses its top spot, which is returned, and nothing else changes. It fails only when every reachable road is out of spots, and then nothing changes |
| Parking.SearchedStayExhausted | editor/src/plugins/sim/new_des_model/scenario.rs:479-495 | roads that left the queue stay exhausted and expanded as the searched set grows |
| Parking.EnqueueNextRoads | editor/src/plugins/sim/new_des_model/scenario.rs:488-494 | every neighbourhood road next to the current road ends up searched; the queue only grows at its end, and only by roads newly marked searched; the start road is never re-queued; every searched road is reachable from the start inside the neighbourhood |
| Parking.EnqueueIfNew | editor/src/plugins/sim/new_des_model/scenario.rs:490-493 | a next road is queued and marked searched exactly when it is in the neighbourhood and not yet searched; nothing else is queued |
| Parking.NextReachable | editor/src/plugins/sim/new_des_model/scenario.rs:488-494 | roads newly marked searched from a reachable road are themselves reachable from the start |
| Seeding.LaneSpots | editor/src/plugins/sim/new_des_model/scenario.rs:401-409 | a road's spots are exactly the free slots of its parking lanes |
| Seeding.LaneSpotsNoDup | editor/src/plugins/sim/new_des_model/scenario.rs:401-409 | a road that lists each lane once lists each free spot once |
| Seeding.StackTotalPop | editor/src/plugins/sim/new_des_model/scenario.rs:483-484 | popping one spot lowers the total of all stacks by one |
| Seeding.PopKeepsSound | editor/src/plugins/sim/new_des_model/scenario.rs:428 | after a car is parked at a popped spot, every spot left in the stacks is still free and on its own road |
| Seeding.PopKeepsComplete | editor/src/plugins/sim/new_des_model/scenario.rs:428 | after a car is parked at a popped spot, every free slot of a road with a stack is still on that road's stack |
| Seeding.ExhaustedIsFull | editor/src/plugins/sim/new_des_model/scenario.rs:480-485 | an emptied stack of a complete table means that road has no free parking slot left |
| Seeding.CollectRoadSpots | editor/src/plugins/sim/new_des_model/scenario.rs:400-409 | the inner lane loop collects exactly the road's free spots |
| Seeding.BuildSpotTable | editor/src/plugins/sim/new_des_model/scenario.rs:396-413 | one stack per neighbourhood road, each a permutation of that road's free spots; the total is the neighbourhood's free-spot count; one fork of the base stream per road |
| Seeding.RoadStack | editor/src/plugins/sim/new_des_model/scenario.rs:399-411 | one road's stack holds, as a multiset, exactly the free spots of the road's parking lanes |
| Seeding.TableComplete | editor/src/plugins/sim/new_des_model/scenario.rs:396-413 | the table built from the roads' free spots misses none of them |
| Seeding.SeededByTrans | editor/src/plugins/sim/new_des_model/scenario.rs:417-443 | seeding for some owners and then one more building is seeding for all of them |
| Seeding.SeedBuilding | editor/src/plugins/sim/new_des_model/scenario.rs:419-442 | each requested car takes one fork of the base stream; the cars placed are appended after the existing ones, owned by the building, numbered in order from the counter, each carrying the RandCar drawn on its own fork and parked at a spot that was free on a road reachable from the building's road (CarsFor); a car is given up on only once no road reachable from the building has a spot left in the stacks; stacks only shrink, and placed cars plus the stacks' total are conserved |
| Seeding.SeedOneCar | editor/src/plugins/sim/new_des_model/scenario.rs:420-429 | one fork per attempt; with no car, the search found no reachable road with a spot and nothing changed; with a car, it is the top spot of a reachable road's stack, that stack loses it, and the car drawn on the forked stream is appended there, owned by the building, with the next id, so the building's cars so far still satisfy CarsFor |
| Seeding.ParkAtTop | editor/src/plugins/sim/new_des_model/scenario.rs:428 | the car is appended with the next id, owned by the building, at the popped top spot; the stacks stay sound and complete and their total drops by one |
| Seeding.CarsForExtend | editor/src/plugins/sim/new_des_model/scenario.rs:420-429 | one more car of the building, with the next id, the RandCar of the next fork and a spot on a reachable road, extends the building's block |
| Seeding.PlacedNext | editor/src/plugins/sim/new_des_model/scenario.rs:428-429 | the car parked at the top spot of a reachable road's stack extends the building's block |
| Seeding.SeedOwners | editor/src/plugins/sim/new_des_model/scenario.rs:417-443 | over all owners: building k's count is the weighted draw taken where buildings 0..k-1 left the stream, each of them one draw plus one fork per car it requested, and the stream returned is the one after the last building; each count has positive weight and bounds the cars the building got; the parked cars are the old ones followed by one block per building in owner order, block k holding exactly placed[k] cars of building k, numbered on from the counter, each drawn on its own fork of building k's stream and parked on a road reachable from building k's road (SeededInTurn); a building got fewer cars than its count only if no road reachable from it has a spot left; no more cars than free spots; the stacks stay complete |
| Seeding.SeedNextOwner | editor/src/plugins/sim/new_des_model/scenario.rs:417-442 | building i's count is the next weighted draw of the stream; the stream handed on is past that draw and one fork per car requested; the loop state extends from i to i + 1 buildings, and the blocks of cars per building extend by building i's block (SeededInTurn) |
| Seeding.NextOwnerKept | editor/src/plugins/sim/new_des_model/scenario.rs:417-442 | building i's draw, its placed cars and its give-up facts extend the owners loop state and the blocks of cars per building |
| Seeding.SeededInTurnExtend | editor/src/plugins/sim/new_des_model/scenario.rs:417-443 | the blocks of cars per building extend by the next building's block, drawn on the stream the buildings before it left |
| Seeding.SeededInTurnFold | editor/src/plugins/sim/new_des_model/scenario.rs:417-443 | the blocks of the buildings before the last one and the last building's block make the blocks of all of them |
| Seeding.SeededInTurnCars | editor/src/plugins/sim/new_des_model/scenario.rs:417-443 | the seeded cars follow the old ones unchanged, numbered on from the counter, each owned by a listed building and parked on a road reachable from that building's road |
| Seeding.DrawnInTurnExtend | editor/src/plugins/sim/new_des_model/scenario.rs:417-443 | one more building's count, drawn where the others left the stream, extends the record of counts drawn in turn, and the stream moves past that draw and one fork per car requested |
| Seeding.GaveUpExtend | editor/src/plugins/sim/new_des_model/scenario.rs:417-443 | buildings given up on earlier stay given up on, since the stacks only shrink |
| Seeding.GaveUpMeansFull | editor/src/plugins/sim/new_des_model/scenario.rs:430-441 | at the end, a building short of its count has every neighbourhood road reachable from it without a free slot |
| Seeding.SeedParkedCars | editor/src/plugins/sim/new_des_model/scenario.rs:385-451 | SeedsParkedCars: cars placed never exceed the free spots counted at the start; the report's counts are the tally of the buildings' requests and placements; the new cars are appended in owner order, placed[k] of them for building k, numbered on from the counter, each drawn on its own fork and parked on a road reachable from its building's road; a building got fewer cars than sampled only if every neighbourhood road reachable from its road is now full; the counts are drawn in turn from the stream after one fork per road, and the stream returned is the one after the last building's draw and forks; the vehicle counter grows by the cars placed; trips are untouched |
| Seeding.BuildingsWithoutCars | editor/src/plugins/sim/new_des_model/scenario.rs:445-450 | the number of buildings that got no car: zero iff every building got one, all of them iff none did |
| Seeding.BuildingsWithoutCarsAsWritten | editor/src/plugins/sim/new_des_model/scenario.rs:449 | the source's count, buildings minus cars in unsigned arithmetic; underflows exactly when there are more cars than buildings |
| Seeding.AsWrittenUnderflows | editor/src/plugins/sim/new_des_model/scenario.rs:449 | one building given two cars makes the subtraction underflow |
| Seeding.AsWrittenMiscounts | editor/src/plugins/sim/new_des_model/scenario.rs:449 | two buildings, one given two cars: the source's count is 0 although one building has none |
| Seeding.AsWrittenAgreesAtMostOneEach | editor/src/plugins/sim/new_des_model/scenario.rs:445-450 | when no building gets more than one car, the source's count is correct |
| Instantiation.FirstUnreserved | editor/src/plugins/sim/new_des_model/scenario.rs:114-117 | none iff every car of the building is reserved; otherwise the first unreserved one |
| Instantiation.WalkOrTransit | editor/src/plugins/sim/new_des_model/scenario.rs:151-172 | walking, or transit exactly along the route the map returns; walking when the chance is 0 or there is no route; transit when the chance is 1 and there is a route |
| Instantiation.ChooseMode | editor/src/plugins/sim/new_des_model/scenario.rs:113-173 | the shape of a scheduled trip: it leaves the building's front door at the drawn time; it reserves a car exactly when it drives one, and that car is an unreserved car of the building; other modes only once all its cars are reserved; bikes are real bikes that do not end on their start sidewalk; percent biking 0 gives no bike; transit follows the route the map returns. An Abort comes only from an undefined or empty goal neighbourhood, and each of those two is an Abort |
| Instantiation.ZeroDistanceBike | editor/src/plugins/sim/new_des_model/scenario.rs:133-137 | a bike trip is of zero distance only when it parks near a building, and a bike sent back to its own building always is |
| Instantiation.ChooseModeByCar | editor/src/plugins/sim/new_des_model/scenario.rs:114-130 | an agent whose building has an unreserved car drives its first such car to a resolved driving goal, reserving it; it is skipped exactly when a border goal has no incoming driving lane |
| Instantiation.ChooseModeByBike | editor/src/plugins/sim/new_des_model/scenario.rs:131-150 | without a car and with a successful bike roll: a bike trip to the biking goal, skipped exactly when that goal is unresolved or ends on the start sidewalk |
| Instantiation.ChooseModeOnFoot | editor/src/plugins/sim/new_des_model/scenario.rs:151-172 | without a car and with a failed bike roll: a walking or transit trip to the walking goal, skipped exactly when a border goal has no sidewalk end |
| Instantiation.SpawnAgent | editor/src/plugins/sim/new_des_model/scenario.rs:103-112 | an empty time window panics and nothing else does so for that reason; trip times lie in the window; the start building is in the source neighbourhood |
| Instantiation.AgentPanic | editor/src/plugins/sim/new_des_model/scenario.rs:103-112 | no panic exactly when the window is non-empty and both the source and the goal neighbourhoods resolve; an empty window is reported first |
| Instantiation.BorderPedestrian | editor/src/plugins/sim/new_des_model/scenario.rs:180-219 | a walking or transit trip from the border's sidewalk, in the window, reserving nothing |
| Instantiation.BorderCar | editor/src/plugins/sim/new_des_model/scenario.rs:232-256 | a random car appearing at the start of the given lane, in the window |
| Instantiation.BorderBike | editor/src/plugins/sim/new_des_model/scenario.rs:258-287 | a random bike appearing on the given lane its own length in, in the window |
| Instantiation.BorderCarStart | editor/src/plugins/sim/new_des_model/scenario.rs:221-231 | border spawn gating: cars start on the first outgoing driving lane, exactly when it exists and is at least MAX_CAR_LENGTH long |
| Instantiation.BorderAgentOutcome | editor/src/plugins/sim/new_des_model/scenario.rs:181-287 | an agent of any mode panics with the empty window when there is one; a trip it queues lies in the window and reserves no car |
| Instantiation.BorderPanic | editor/src/plugins/sim/new_des_model/scenario.rs:181-287 | a border agent meets no panic exactly when the window is non-empty and the goal is a border or a neighbourhood with buildings |
| Instantiation.BorderRun | editor/src/plugins/sim/new_des_model/scenario.rs:181-287 | a run of n border agents of one mode queues at most n trips |
| Instantiation.ModeRun | editor/src/plugins/sim/new_des_model/scenario.rs:178-288 | one mode adds at most its count of trips to those before it |
| Instantiation.BorderBatch | editor/src/plugins/sim/new_des_model/scenario.rs:178-288 | a border batch queues at most one trip per pedestrian, car and bike it asks for |
| Instantiation.BikeCapable | editor/src/plugins/sim/new_des_model/scenario.rs:258-265 | exactly the driving lanes whose road allows bikes |
| Instantiation.BorderBikeLanes | editor/src/plugins/sim/new_des_model/scenario.rs:258-265 | the lanes a bike may start on: outgoing biking lanes, then outgoing driving lanes of bike-friendly roads |
| Instantiation.BorderBikeLanesChar | editor/src/plugins/sim/new_des_model/scenario.rs:258-265 | a lane is a bike start lane iff it is an outgoing biking lane or a bike-friendly outgoing driving lane; biking lanes come first |
| Instantiation.ParkedCarSpots | editor/src/plugins/sim/new_des_model/scenario.rs:119-129 | exactly the spots of the trips that drive a parked car |
| Instantiation.ReserveKeepsSound | editor/src/plugins/sim/new_des_model/scenario.rs:114-129 | reserving an unreserved car for a new trip keeps every driven car distinct and reserved |
| Instantiation.ScheduleKeepsSound | editor/src/plugins/sim/new_des_model/scenario.rs:119-130 | queueing an agent's trip and its reservation keeps the reservations sound |
| Instantiation.Enqueue | editor/src/plugins/sim/new_des_model/scenario.rs:121-172 | an agent's trip, if it has one, is queued after the trips so far; parked cars and the counter are unchanged |
| Instantiation.SpawnRun | editor/src/plugins/sim/new_des_model/scenario.rs:103-174 | a run of n agents queues at most n trips and never releases a reservation |
| Instantiation.SpawnRunStops | editor/src/plugins/sim/new_des_model/scenario.rs:103-112 | once an agent has panicked, later agents add nothing to the run |
| Instantiation.SpawnBatch | editor/src/plugins/sim/new_des_model/scenario.rs:97-174 | a batch queues at most one trip per agent and never releases a reservation |
| Instantiation.BatchPanic | editor/src/plugins/sim/new_des_model/scenario.rs:97-112 | an undefined source neighbourhood is reported before anything else; otherwise no panic exactly when there are no agents or the agents meet none |
| Instantiation.SpawnAgentPanics | editor/src/plugins/sim/new_des_model/scenario.rs:103-112 | an agent panics exactly on an empty time window, an undefined or empty source neighbourhood, or an undefined or empty goal neighbourhood, in that order and with that panic; the parked cars, the reservations and the stream play no part |
| Instantiation.SpawnRunPanics | editor/src/plugins/sim/new_des_model/scenario.rs:103-174 | a run of agents panics exactly when it has an agent and its agents meet a panic, and then at its first agent, having queued and reserved nothing |
| Instantiation.SpawnRunTrips | editor/src/plugins/sim/new_des_model/scenario.rs:103-174 | every trip of a run lies in the batch's window, is not a car appearing from nowhere, and leaves the front door of a building of the source neighbourhood |
| Instantiation.SpawnAgentReserves | editor/src/plugins/sim/new_des_model/scenario.rs:114-129 | an agent reserves a car exactly when its trip drives a parked car, and then an unreserved car of its start building, parked where the trip drives from |
| Instantiation.SpawnRunSound | editor/src/plugins/sim/new_des_model/scenario.rs:95-174 | appended to trips that drive distinct reserved cars, the trips of a run drive distinct cars it reserved, each its start building's |
| Instantiation.SpawnRunNextSound | editor/src/plugins/sim/new_des_model/scenario.rs:103-174 | each further agent of a run keeps the reservations sound |
| Instantiation.SpawnStepSound | editor/src/plugins/sim/new_des_model/scenario.rs:114-130 | one more agent that reserves only its own building's unreserved car keeps the reservations sound |
| Instantiation.SpawnBatchPanic | editor/src/plugins/sim/new_des_model/scenario.rs:97-174 | a batch panics exactly on an undefined source neighbourhood, or when it has agents and they meet a panic, and then it has queued and reserved nothing |
| Instantiation.SpawnBatchSound | editor/src/plugins/sim/new_des_model/scenario.rs:95-174 | a batch keeps the reservations sound |
| Instantiation.SpawnBatchTrips | editor/src/plugins/sim/new_des_model/scenario.rs:97-174 | a batch queues only trips of its own window and source neighbourhood |
| Instantiation.SpawnOverTimeBatch | editor/src/plugins/sim/new_des_model/scenario.rs:97-174 | the trips queued after the existing ones, the reservations, the panic and the stream are exactly those of the batch's agents run in turn on the simulation's parked cars (SpawnBatch); parked cars and the counter are unchanged |
| Instantiation.BorderSpawn | editor/src/plugins/sim/new_des_model/scenario.rs:178-288 | pedestrians, then cars, then bikes, each mode only where the border has a place for it to start; the trips queued after the existing ones, the panic and the stream are exactly BorderBatch's; parked cars and the counter are unchanged |
| Instantiation.BorderMode | editor/src/plugins/sim/new_des_model/scenario.rs:181-287 | the agents of one mode of a border batch run in turn: the trips queued after the existing ones, the panic and the stream are exactly BorderRun's; parked cars and the counter are unchanged |
| Instantiation.RunMode | editor/src/plugins/sim/new_des_model/scenario.rs:178-288 | one mode after the modes before it: nothing once an earlier mode panicked or where the border has no place for this one, otherwise its agents' run, queued after the earlier modes' trips |
| Instantiation.BorderRunStops | editor/src/plugins/sim/new_des_model/scenario.rs:181-287 | once a border agent has panicked, later agents add nothing |
| Instantiation.BorderAgentPanics | editor/src/plugins/sim/new_des_model/scenario.rs:181-287 | a border agent of any mode panics exactly on an empty time window or an undefined or empty goal neighbourhood, with that panic |
| Instantiation.BorderRunPanics | editor/src/plugins/sim/new_des_model/scenario.rs:181-287 | a run of border agents panics exactly when it has an agent and its agents meet a panic, and then having queued nothing |
| Instantiation.BorderAgentTrip | editor/src/plugins/sim/new_des_model/scenario.rs:181-287 | an agent of a mode the border has a place for queues only a border trip of its batch |
| Instantiation.BorderRunTrips | editor/src/plugins/sim/new_des_model/scenario.rs:181-287 | every trip of a run of such agents is a border trip of its batch |
| Instantiation.BorderBatchFacts | editor/src/plugins/sim/new_des_model/scenario.rs:178-288 | a border batch panics exactly when it has a mode with a place to start and a positive count and its agents meet a panic, and then it has queued nothing; with no such mode it queues nothing; every trip it queues is a border trip of the batch |
| Instantiation.SeedAll | editor/src/plugins/sim/new_des_model/scenario.rs:79-93 | the seeding requests run in order on one stream: stage k runs from stream k to stream k + 1 and appends exactly what seed_parked_cars seeds for request k's neighbourhood (SeedsParkedCars, with the ids numbered on from the cars seeded before it); the first stream is the one passed in and the last is the one returned; the run completes iff every neighbourhood is defined, and otherwise stops at the first undefined one, which is fatal; trips are untouched |
| Instantiation.SeedRequest | editor/src/plugins/sim/new_des_model/scenario.rs:79-93 | one defined request seeded by seed_parked_cars: its stage, stream and report are appended to the record in request order; trips are untouched |
| Instantiation.StageSeededCars | editor/src/plugins/sim/new_des_model/scenario.rs:79-93 | one stage keeps the cars before it and numbers its new cars on from the counter |
| Instantiation.SeededInOrderIds | editor/src/plugins/sim/new_des_model/scenario.rs:79-93 | every stage keeps the cars parked before seeding, and the cars seeded so far are numbered in order from the counter |
| Instantiation.SeededInOrderExtend | editor/src/plugins/sim/new_des_model/scenario.rs:79-93 | one more request seeded by seed_parked_cars on the stream and the cars the earlier requests left extends the record of stages, streams and reports in request order, and the counter relation carries over |
| Instantiation.SpawnAllRunNext | editor/src/plugins/sim/new_des_model/scenario.rs:97-174 | the run over the first k + 1 batches is the run over the first k followed by batch k, on the reservations and the stream they left |
| Instantiation.SpawnAllRunStops | editor/src/plugins/sim/new_des_model/scenario.rs:97-174 | once a batch has panicked, later batches add nothing |
| Instantiation.FirstPanicIsFirst | editor/src/plugins/sim/new_des_model/scenario.rs:95-288 | the first panic of a sequence of batches is none exactly when no batch panics, and otherwise the panic of the first batch that does |
| Instantiation.SpawnAllPanic | editor/src/plugins/sim/new_des_model/scenario.rs:95-174 | the SpawnOverTime batches end with the first panic one of them meets |
| Instantiation.SpawnAllSound | editor/src/plugins/sim/new_des_model/scenario.rs:95-174 | the batches, sharing one reservation set, keep it sound: no car is driven by two trips across all of them, and each is its start building's |
| Instantiation.SpawnAllTrips | editor/src/plugins/sim/new_des_model/scenario.rs:97-174 | every trip the batches queue is a trip of one of them |
| Instantiation.SpawnAll | editor/src/plugins/sim/new_des_model/scenario.rs:95-175 | the batches in order with one reservation set and one stream: the trips queued after the existing ones, the reservations, the panic and the stream are exactly SpawnAllRun's on the simulation's parked cars |
| Instantiation.SpawnAllRun | editor/src/plugins/sim/new_des_model/scenario.rs:95-175 | the batches in order share one reservation set that only grows, and queue at most one trip per agent |
| Instantiation.BorderAll | editor/src/plugins/sim/new_des_model/scenario.rs:177-288 | the border batches in order on one stream: the trips queued after the existing ones, the panic and the stream are exactly BorderAllRun's |
| Instantiation.BorderNext | editor/src/plugins/sim/new_des_model/scenario.rs:177-288 | border batch k on the simulation extends the run over the batches before it to the run over the first k + 1 |
| Instantiation.BorderAllRun | editor/src/plugins/sim/new_des_model/scenario.rs:177-288 | the border batches in order queue at most one trip per agent they ask for |
| Instantiation.BorderAllRunNext | editor/src/plugins/sim/new_des_model/scenario.rs:178-288 | the run over the first k + 1 border batches is the run over the first k followed by batch k on the stream they left |
| Instantiation.BorderAllRunStops | editor/src/plugins/sim/new_des_model/scenario.rs:178-288 | once a border batch has panicked, later ones add nothing |
| Instantiation.BorderAllPanic | editor/src/plugins/sim/new_des_model/scenario.rs:178-288 | the border batches end with the first panic one of them meets |
| Instantiation.BorderAllTrips | editor/src/plugins/sim/new_des_model/scenario.rs:178-288 | every trip the border batches queue is a border trip of one of them |
| Instantiation.BorderBatchesNoCar | editor/src/plugins/sim/new_des_model/scenario.rs:178-288 | no trip of the border batches drives a parked car |
| Instantiation.NoCarTripsKeepSound | editor/src/plugins/sim/new_des_model/scenario.rs:178-288 | appending trips that drive no parked car keeps the reservations sound |
| Instantiation.QueueAllPanic | editor/src/plugins/sim/new_des_model/scenario.rs:95-288 | queueing the batches panics exactly when some SpawnOverTime or border batch meets a panic |
| Instantiation.QueueAllSound | editor/src/plugins/sim/new_des_model/scenario.rs:95-288 | the trips queued drive distinct reserved cars, each from its owner's building, and every trip is a trip of a SpawnOverTime batch or a border trip of a border batch |
| Instantiation.QueueTrips | editor/src/plugins/sim/new_des_model/scenario.rs:95-288 | the SpawnOverTime batches with a reservation set that starts empty, then, unless they panicked, the border batches: the trips queued, the panic and the stream are exactly QueueAll's |
| Instantiation.QueueAll | editor/src/plugins/sim/new_des_model/scenario.rs:95-288 | all the batches queue at most one trip per agent they ask for |
| Instantiation.QueuedTripsSound | editor/src/plugins/sim/new_des_model/scenario.rs:95-288 | of the trips queued after the given ones, no two drive the same parked car, each driven car is parked, and each is driven from its owner's building |
| Instantiation.Instantiate | editor/src/plugins/sim/new_des_model/scenario.rs:72-292 | the run ends early exactly when a seeding request names an undefined neighbourhood or a batch meets a panic; the seeding stages are seed_parked_cars run request by request (SeededInOrder), all of them exactly when every request's neighbourhood is defined, and the stream they leave is the one the batches start from; once seeding completes, the trips queued after the existing ones, the panic and the stream are QueueAll's on the seeded cars, and otherwise no trip is queued; earlier parked cars are kept and the new ones are numbered on from the counter; no parked car is driven by two trips; each driven car is parked and driven from its owner's building |
| Instantiation.ReservedSpotsOccupied | editor/src/plugins/sim/new_des_model/scenario.rs:114-129 | every driven spot holds a parked car |
| Orchestrator.ParkedIdsPop | sim/src/sim.rs:152-161 | removing a lane's last parked car removes exactly that car from the parked set |
| Orchestrator.ParkedIdsPush | sim/src/sim.rs:94-97 | parking a car on a tracked lane adds exactly that car |
| Orchestrator.ParkedIdsShrink | sim/src/sim.rs:58-72 | emptying or removing parking lanes loses no car from elsewhere and adds none |
| Orchestrator.BoundedIdsCount | sim/src/sim.rs:90-92 | a set of ids below n has at most n members |
| Orchestrator.FilledOn | sim/src/sim.rs:94-97 | the cars a fill list parks on a lane: numbered from the counter, one per entry naming that lane |
| Orchestrator.FilledOnStep | sim/src/sim.rs:94-97 | one more fill entry adds its car to its own lane only, at the end |
| Orchestrator.FillOneMore | sim/src/sim.rs:94-97 | parking the car of the next fill entry extends every lane's record of new cars by that entry |
| Orchestrator.LanePair | sim/src/sim.rs:118-150 | start_agent lane pairing: a driving lane pairs with its road's parking lane, a parking lane with its road's driving lane; no pair otherwise |
| Orchestrator.StartFromPair | sim/src/sim.rs:152-166 | success iff the parking lane has a car; its last car leaves parking and drives on the driving lane exactly when the driving subsystem accepts it, and otherwise nothing but the stream changes; the stream is the one the driving subsystem returns; no car appears or vanishes and no debug flag is raised |
| Orchestrator.StartOne | sim/src/sim.rs:116-167 | a sidewalk spawns a pedestrian iff a path is found, on the stream path finding returns; a driving or parking lane with a partner starts a car from the pair; any other lane changes nothing; cars are conserved |
| Orchestrator.StartAll | sim/src/sim.rs:107-112 | the count of successes is at most the number of lanes; the parking subsystem keeps its lanes |
| Orchestrator.StartAllStep | sim/src/sim.rs:108-112 | one more lane is one more start_agent after the others, counted when it succeeds |
| Orchestrator.StartOneLane | sim/src/sim.rs:152-161 | a parking lane is untouched by start_agent, or loses exactly its last car to a start from a lane paired with it |
| Orchestrator.StartAllConserves | sim/src/sim.rs:107-112 | starting agents from a list of lanes moves cars between parking and driving only: no car appears or vanishes, no lane or turn changes hands, no debug flag is raised |
| Orchestrator.StartAllLane | sim/src/sim.rs:107-112 | each parking lane only loses cars from its end, at most one per listed lane paired with it |
| Orchestrator.StartAllNoPedestrian | sim/src/sim.rs:107-112 | with no sidewalk among the lanes, no pedestrian appears |
| Orchestrator.ChooseDifferent | sim/src/sim.rs:325-337 | the result is a choice different from the excluded one, the first such draw, and the stream returned is past exactly the draws taken; none only if every try drew the excluded one, and then the stream is past all the tries |
| Orchestrator.Sim.constructor | sim/src/sim.rs:41-56 | time zero, no ids handed out, nothing debugged; driving and parking track exactly the map's lanes and turns of their kind; walking, built without the map, starts tracking nothing; no cars or pedestrians; parking lanes start empty; the stream is the one given |
| Orchestrator.Sim.EditLaneType | sim/src/sim.rs:58-72 | lane edit routing: the lane leaves its old type's subsystem and joins its new type's (a new parking lane is empty); no other lane or car changes; tracking of the map is preserved; the random stream is unchanged |
| Orchestrator.Sim.RemoveLane | sim/src/sim.rs:59-64 | the lane leaves exactly its old type's subsystem; the random stream is unchanged |
| Orchestrator.Sim.AddLane | sim/src/sim.rs:65-71 | the lane joins exactly its new type's subsystem; the random stream is unchanged |
| Orchestrator.Sim.EditRemoveTurn | sim/src/sim.rs:74-80 | turn edit routing: a crossing leaves the walking subsystem, any other turn the driving one; nothing else changes; the random stream is unchanged |
| Orchestrator.Sim.EditAddTurn | sim/src/sim.rs:82-88 | a crossing joins the walking subsystem, any other turn the driving one; nothing else changes; the random stream is unchanged |
| Orchestrator.Sim.TotalCars | sim/src/sim.rs:90-92 | the count bounds the number of cars the simulation knows |
| Orchestrator.Sim.SeedParkedCars | sim/src/sim.rs:94-97 | the parking subsystem's roll on the stream lists one tracked lane per new car; each lane gets, at its end, the cars of its entries, numbered from the counter in order; the counter advances by the number of entries and the known cars gain exactly the new ids; the stream is the one the roll returns; nothing else changes |
| Orchestrator.Sim.ParkAll | sim/src/sim.rs:94-97 | one parked car per fill entry, in order, with the stream and the other subsystems unchanged |
| Orchestrator.Sim.ParkFillEntry | sim/src/sim.rs:94-97 | the car of the next fill entry is parked, extending the record of cars parked so far |
| Orchestrator.Sim.ParkNewCar | sim/src/sim.rs:94-97 | the counter's next id is parked at the end of the lane and the counter advances by one; the known cars gain exactly that id; the stream is unchanged |
| Orchestrator.Sim.EmptyLanes | sim/src/sim.rs:100 | exactly the tracked driving lanes with no car on them, each once |
| Orchestrator.Sim.StartAgent | sim/src/sim.rs:116-167 | the new state, success flag and stream are exactly StartOne's on the current clock; the known cars, the counter, the clock and the debugged car are unchanged |
| Orchestrator.Sim.StartParkedCar | sim/src/sim.rs:152-166 | the new state, success flag and stream are exactly StartFromPair's on the current clock; the known cars are conserved |
| Orchestrator.Sim.StartManyParkedCars | sim/src/sim.rs:99-114 | the lanes tried are the first min(asked, empty driving lanes) of the empty driving lanes, each once, after a shuffle that takes one draw per lane; the new state and the count of successes are start_agent applied to those lanes in turn; cars are conserved and no lane changes hands |
| Orchestrator.Sim.ShuffledEmptyLanes | sim/src/sim.rs:100-104 | exactly the empty driving lanes, each once; the shuffle takes one draw per lane and none when there is no lane; nothing else changes |
| Orchestrator.Sim.StartEach | sim/src/sim.rs:107-112 | the new state and the count of successes are start_agent applied to each listed lane in turn |
| Orchestrator.Sim.Step | sim/src/sim.rs:214-220 | the tick advances by exactly one; driving and walking take their stepped state, which may retire cars but adds none and raises no debug flag; parking and the stream are untouched |
| Orchestrator.Sim.GetCarState | sim/src/sim.rs:222-232 | car state projection: moving iff driving and not waiting, stuck iff driving and waiting, parked otherwise |
| Orchestrator.Sim.CarTooltip | sim/src/sim.rs:277-283 | a driving car shows the driving subsystem's lines; any other car shows only that it is parked |
| Orchestrator.Sim.ToggleDebug | sim/src/sim.rs:285-295 | the chosen car's flag flips and it becomes the debug car; a previously debugged other car still driving is cleared, and one that was retired is skipped; wherever the source does not panic the driving cars end exactly as it leaves them; no car's state changes; the stream is unchanged |
| Orchestrator.ToggleDebugAsWritten | sim/src/sim.rs:285-295 | the source's toggle_debug: it panics exactly when the chosen car, or a previously debugged other car, is not a driving car; otherwise the chosen car's flag flips |
| Orchestrator.ToggleDebugAfterStepPanics | sim/src/sim.rs:214-220 | a state a step can reach, with the debugged car retired and debug still naming it, makes the source's toggle_debug on another driving car panic |

## Left out

- Parking.FindSpotNearBuilding: breadth-first order is not pinned down. The contract promises the building's own road first when it has a spot, and otherwise some reachable road with a spot; which of several such roads the queue reaches first is not stated.
- Rendering, logging, progress timers and warnings of both files: `get_draw_car`, `get_draw_ped`, `get_draw_cars`, `get_draw_peds`, `summary`, `ped_tooltip` and the text of every warning and note. These produce output only.
- `Sim::start_benchmark` and `measure_speed` read the wall clock.
- `Sim::seed_pedestrians` computes paths in parallel. It is left out as concurrency.
- The final `spawn_all_trips` of `instantiate` belongs to the new discrete-event simulation. That simulation is not part of this model. `DesSim` keeps only the four calls instantiation makes, with behaviour assumed from their names: free spots are the unoccupied slots, and owner lookup filters the parked cars.
- Distances, times and speeds are floating point in the source. Here they are natural numbers: lengths in centimetres and times in seconds. The car and bike length bounds are representative constants; the constants module is not part of this model.
- Probabilities are fixed point, in millionths (`Chance`).
- The random generator is an oracle (`Oracle.Rng`). Only the draw and fork order is modelled.
- The map, path finding and transit routing are functions given as parameters (`MapModel.Map`, `Orchestrator.Externals`). Neighbourhoods come as a map from name to buildings and roads, loaded and well formed (`WellFormedHoods`).
- The subsystems' own internals are not modelled: how driving and walking step, `start_car_on_lane` and `tooltip_lines`. The orchestrator sees each subsystem only as the ids and lanes it holds. Stepping takes the stepped car and pedestrian states as inputs. Starting a car is the oracle `startCar`; when it succeeds, the car sits on the driving lane, moving and not debugged.
- Orchestrator.Sim.Step: requires that the stepped driving state knows no new car and flags no car for debugging; the driving subsystem's step guarantees this and is not part of this model. The tick (`Tick`) is unbounded, so its overflow is not modelled.
- Orchestrator.Sim.SeedParkedCars: the parking subsystem's roll over its free spots is the external `rollSpots`, which returns the lane of each new car in order; the percent is a `Chance` in millionths, not a float. `seed_random_cars` itself belongs to the parking subsystem, which is not part of this model.
- Orchestrator.Sim.EmptyLanes: the lanes come in no particular order; the source's order is the driving subsystem's map order.
- Orchestrator.Sim.StartManyParkedCars: the shuffle of the empty lanes is modelled as any permutation that consumes one draw per lane.
- Orchestrator.ChooseDifferent: the source retries without bound and never returns when every choice equals the excluded one. The model bounds the tries by `fuel` and returns none once they are exhausted.
- Orchestrator.Sim.ToggleDebug: the source unwraps the chosen car; the model requires it to be a driving car instead of modelling that panic. The unwrap of the previously debugged car is under "## Findings".
- Orchestrator.Sim.StartAgent: a lane the parking subsystem does not track is treated as having no parked car.
- Orchestrator.Sim.constructor: the driving and parking subsystems are built from the map's lanes and turns, given as sets. The walking subsystem is built without the map (sim.rs:51) and starts tracking no sidewalk and no crossing; which sidewalks it comes to hold is up to code that is not part of this model.
- The vehicle-id counter (`car_id_counter`) is an unbounded integer; `usize` overflow is not modelled.

Three details of the code the model follows:

- The base random stream is forked only in `seed_parked_cars`: once per road shuffle and once per requested car. Every other decision in `instantiate` draws straight from the shared stream (see the comment at scenario.rs:71).
- One reservation set is shared by all `SpawnOverTime` batches (scenario.rs:96), not one per batch. So no car is driven twice across the whole scenario.
- For an agent with a parked car, the goal is resolved first, and the car is reserved only when a goal is found (scenario.rs:118-119). An agent whose goal is unresolved keeps the car free and does not fall back to another mode.

## Findings

| source | as written | input that shows it | evidently intended | confidence | as-written member | corrected member |
|---|---|---|---|---|---|---|
| editor/src/plugins/sim/new_des_model/scenario.rs:449 | the note counts buildings without cars as `owner_buildings.len() - new_cars` in unsigned arithmetic | one building given two cars: 1 - 2 underflows. Two buildings given [2, 0] cars: the count is 0, but one building has none | count the buildings that received no car | not executed | Seeding.BuildingsWithoutCarsAsWritten, shown by Seeding.AsWrittenUnderflows and Seeding.AsWrittenMiscounts | Seeding.BuildingsWithoutCars, used by Seeding.SeedParkedCars; Seeding.AsWrittenAgreesAtMostOneEach shows the two agree when no building gets more than one car |
| sim/src/sim.rs:285-295 | `toggle_debug` unwraps the driving entry of the previously debugged car; `step` (sim.rs:214-220) can retire that car while `debug` still names it | debug car 0 is retired by a step, then `toggle_debug(1)` on a driving car 1 panics | skip a previously debugged car that is no longer driving | not executed; medium | Orchestrator.ToggleDebugAsWritten, shown by Orchestrator.ToggleDebugAfterStepPanics | Orchestrator.Sim.ToggleDebug |
