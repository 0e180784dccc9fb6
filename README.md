# Fleet simulator driver, modelled in Dafny

This project models `Simulator`, the discrete-time driver of the fleet-dispatch
simulator (`src/simulator/simulator.py`). The driver does five things:

- It owns the clock `t` and the timestep `dt`.
- It keeps a vehicle store and a customer store.
- Each tick it steps every customer and every vehicle once. It deletes the
  customers that are arrived or disappeared. It scores and deletes the vehicles
  that exit the market. It then merges in the new demand and advances the clock.
- It applies a policy's match commands: a vehicle heads for a customer, and the
  customer waits for it.
- It applies a policy's dispatch commands: off-duty, cruise along a cached
  route, or cruise to a destination through one batched routing call.

The model has two layers.

- **Pure semantics**, in the modules `Stores`, `Ticks` and `Commands`.
  - A store is a list of ids in insertion order plus a map from id to entity.
    This makes iteration over a store deterministic.
  - Each operation of the driver is a function on store values. Each function
    is defined by recursion on the last element, in the same order as the
    source's loops.
  - Lemmas state what each operation means: which entries it deletes, keeps or
    adds; which orders it issues and to whom; what it leaves alone.
- **The driver**, in the module `Simulation`, as the class `Simulator`.
  - The fields are `t`, `dt`, `vehicles` and `customers`.
  - Three ghost logs record side effects: every order issued to an entity, the
    score records, and the argument of every batched routing call.
  - Every method that loops does so with a `while` or `for` loop. Its
    invariant ties the loop state to the function of the pure layer, over the
    prefix of the input processed so far.
  - Each method's `ensures` states the new state as that function of the old
    state. The lemmas of the pure layer then apply to the driver.

The collaborators are arguments of the model, bundled in the datatype
`Entities.Env` as total functions:

- the entities' own state machines: stepping a vehicle or a customer, obeying
  an order, waiting for a vehicle;
- the demand generator, as a function of `(t, dt)`;
- the routing engine's batched `route` call and its `get_route_cache`;
- the configured `OFF_DURATION`.

The off-duty sampler's draws are a sequence the caller of `DispatchVehicles`
supplies, one per command position. A precondition says the draws of the
off-duty commands for known vehicles lie in the sampler's range: those are
the only commands for which the source calls the sampler.

The pass-specific pieces of a tick are `Ticks.CustomerStep` and
`Ticks.VehicleStep` (one entity's `step(dt)`), and the removal tests
`Ticks.IsTerminal` (arrived or disappeared) and `Ticks.HasExited` (the exit
flag). What they mean in a tick is stated by `Ticks.TickCustomers` and
`Ticks.TickVehicles`.

## Model

| member | source | states |
|---|---|---|
| `Entities.NewVehicle` | src/simulator/simulator.py:30-31 | a populated vehicle stands at the given location, idle, not exiting the market and in the given initial internal state |
| `Entities.ScoreRecord` | src/simulator/simulator.py:43 | a score record is the current time, then the vehicle id, then the vehicle's score components, in that order and nothing else |
| `Stores.Put` | src/simulator/simulator.py:31 | storing an entity keeps the store well formed (every key listed exactly once); the entry is overwritten; a new id goes to the end of the iteration order and a known id keeps its place |
| `Stores.Remove` | src/simulator/simulator.py:38 | deleting an id keeps the store well formed, removes exactly that key and keeps the order of the remaining ids |
| `Stores.Sweep` | src/simulator/simulator.py:35-45 | one pass that steps the listed entities and deletes the done ones keeps the store well formed: every key listed exactly once |
| `Stores.SweepRemovesExactlyTheDone` | src/simulator/simulator.py:35-45 | one pass that steps every listed entity and deletes the done ones deletes exactly the entities that are done after their step, keeps the others in their order, stores each survivor in its stepped state, and leaves unvisited entries alone |
| `Stores.SweepKeys` | src/simulator/simulator.py:37-38 | a pass deletes exactly the entities that are done after their step |
| `Stores.SweepIds` | src/simulator/simulator.py:35-45 | a pass keeps the iteration order of the entities it does not delete |
| `Stores.SweepValues` | src/simulator/simulator.py:36-41 | a pass stores every visited survivor in its stepped state and leaves unvisited entities alone |
| `Stores.Merge` | src/simulator/simulator.py:99 | merging new arrivals keeps the store well formed |
| `Stores.MergeSpec` | src/simulator/simulator.py:97-99 | merging new arrivals keeps every old entry and adds every arriving id; an arriving id holds its last arrival; an old entry not among the arrivals is unchanged; the old ids keep their place at the front of the iteration order |
| `Ticks.CustomerStep` | src/simulator/simulator.py:36 | stepping a customer never changes its origin |
| `Ticks.Exiting` | src/simulator/simulator.py:41-42 | an id is listed as exiting if and only if the pass visits it and its vehicle exits the market after its step |
| `Ticks.ExitRecords` | src/simulator/simulator.py:42-44 | a pass emits at most as many score records as it visits vehicles; each record starts with the current time, then the id of a visited vehicle; when the visit order has no repetition, no two records carry the same id |
| `Ticks.Tick` | src/simulator/simulator.py:34-48 | one tick (customers, then vehicles, then new demand for `(t, dt)`, then the clock) leaves both stores well formed |
| `Ticks.TickCustomers` | src/simulator/simulator.py:35-38 | after a tick a customer is stored if and only if the generator produced it for this tick, or it was stored before and is neither arrived nor disappeared after its step; a new customer is stored as generated, so it is not stepped or removed in the tick it arrives |
| `Ticks.TickVehicles` | src/simulator/simulator.py:40-45 | after a tick a vehicle is stored if and only if it was stored before and does not exit the market after its step; survivors keep their order; the exiting vehicles, listed once each, get exactly one score record each, `[t, id] ++ score`, stamped with the time before the clock advances |
| `Ticks.ExitRecordsSpec` | src/simulator/simulator.py:42-44 | the k-th score record of a pass belongs to the k-th exiting vehicle and carries that vehicle's score after its step |
| `Ticks.Run` | src/simulator/simulator.py:34-48 | any number of ticks leaves both stores well formed |
| `Ticks.RunClock` | src/simulator/simulator.py:94-95 | after `n` ticks from time `t0` the clock reads `t0 + n * dt`, and `dt` itself is unchanged |
| `Commands.Obey` | src/simulator/simulator.py:64 | every order to a vehicle (lines 64, 79, 83 and 92) changes that vehicle's entry and no other, and of it only the phase and internal state; the ids and their order stay |
| `Commands.WaitFor` | src/simulator/simulator.py:65 | a wait changes that customer's entry and no other, and keeps its origin; the ids and their order stay |
| `Commands.MatchStep` | src/simulator/simulator.py:53-65 | one match command never adds, removes or reorders entries; a command with an unknown vehicle or customer id changes nothing at all |
| `Commands.MatchAll` | src/simulator/simulator.py:52-65 | a match batch keeps the ids and the iteration order of both stores |
| `Commands.MatchKeepsPlaces` | src/simulator/simulator.py:64-65 | a match batch changes only vehicle phases and internal states; no vehicle moves, exits or changes score, and no customer's origin changes |
| `Commands.MatchIssuesPerCommand` | src/simulator/simulator.py:53-65 | a match batch issues, command by command, exactly that command's orders against the starting stores: none for an unknown id; otherwise "head for the customer's origin" to the vehicle and "wait for vehicle" to the customer, with the command's duration |
| `Commands.PairOrders` | src/simulator/simulator.py:63-65 | a known match command issues exactly two orders: to the command's vehicle, head for the command's customer at that customer's origin; to the command's customer, wait; both with the command's duration; an unknown one issues none |
| `Commands.MatchSkipsUnknown` | src/simulator/simulator.py:54-61 | removing a command with an unknown vehicle or customer id from anywhere in a batch changes neither the stores nor the orders issued; the rest of the batch still runs |
| `Commands.MatchTouchesOnlyMatched` | src/simulator/simulator.py:63-65 | a vehicle or customer that no known match command names is left exactly as it was |
| `Commands.OffDurationLow` | src/simulator/simulator.py:102 | the lower bound of the off-duty draw is `OFF_DURATION / 2` truncated to a whole number |
| `Commands.OffDurationHigh` | src/simulator/simulator.py:102 | the upper bound of the off-duty draw is `OFF_DURATION * 3 / 2` truncated to a whole number |
| `Commands.OffDurationRange` | src/simulator/simulator.py:101-102 | the off-duty range `[OFF_DURATION/2, OFF_DURATION*3/2)` is exactly `OFF_DURATION` wide; for 100 it is `[50, 150)` |
| `Commands.Group` | src/simulator/simulator.py:69-86 | the first pass of a dispatch batch keeps the vehicle ids and their order; it queues as many origin-destination pairs as vehicles, and only vehicles that are in the store |
| `Commands.GroupPhasesOnly` | src/simulator/simulator.py:77-83 | the first pass changes only vehicle phases and internal states |
| `Commands.GroupRequest` | src/simulator/simulator.py:71-87 | the batched routing request has one pair per known destination command, in encounter order: that vehicle's location and the command's destination; the queued vehicles are those commands' vehicles, position by position; off-duty, cached-route and unknown commands add nothing |
| `Commands.GroupIssuesPerCommand` | src/simulator/simulator.py:77-83 | the first pass issues, command by command, exactly that command's order: a rest with the command's draw for a known off-duty command, a cruise along the cached route with the cached trip time for a known cached-route command, and nothing otherwise |
| `Commands.GroupTouchesOnlyCommanded` | src/simulator/simulator.py:71-86 | the first pass leaves each vehicle that no command names exactly as it was |
| `Commands.GroupLeavesUnordered` | src/simulator/simulator.py:71-86 | the first pass leaves each vehicle it issues no order to exactly as it was, including one named only by destination commands or by nothing |
| `Commands.CruiseAll` | src/simulator/simulator.py:89-92 | the second pass keeps the vehicle ids and their order |
| `Commands.CruiseAllPhasesOnly` | src/simulator/simulator.py:89-92 | the second pass changes only vehicle phases and internal states |
| `Commands.CruiseAllIssues` | src/simulator/simulator.py:89-92 | the second pass issues one cruise per routing result with a non-zero trip time, in order, to the vehicle queued at that result's position and along that result's route; a zero trip time issues nothing |
| `Commands.CruiseAllFrame` | src/simulator/simulator.py:89-92 | a vehicle that receives no cruise in the second pass, including one whose result has trip time zero, is left exactly as it was |
| `Commands.CruiseAllLeavesUnordered` | src/simulator/simulator.py:89-92 | the second pass leaves each vehicle it issues no cruise to exactly as it was |
| `Commands.Nonzero` | src/simulator/simulator.py:90-91 | the positions used by the second pass are exactly those below the zip length whose trip time is not zero |
| `Commands.Dispatch` | src/simulator/simulator.py:68-92 | a dispatch batch keeps the vehicle ids and their order |
| `Commands.DispatchRestsInRange` | src/simulator/simulator.py:77-79 | every rest a dispatch batch orders lasts a duration in `[OFF_DURATION/2, OFF_DURATION*3/2)`, given the sampler's draws for the off-duty commands of known vehicles lie in that range |
| `Commands.DispatchTouchesOnlyCommanded` | src/simulator/simulator.py:68-92 | a dispatch batch adds, removes, reorders and moves no vehicle, changes no exit flag or score, and leaves each vehicle that no command names exactly as it was |
| `Commands.DispatchLeavesUnordered` | src/simulator/simulator.py:68-92 | a dispatch batch leaves each vehicle it issues no order to exactly as it was; with `GroupIssuesPerCommand` and `CruiseAllIssues`, that covers a vehicle whose only commands are destination commands answered with trip time zero |
| `Simulation.Simulator.constructor` | src/simulator/simulator.py:13-19 | a new driver has the given start time and timestep, empty stores and empty logs |
| `Simulation.Simulator.Reset` | src/simulator/simulator.py:21-27 | reset empties both stores; `t` and `dt` are overwritten when given and kept otherwise |
| `Simulation.Simulator.PopulateVehicle` | src/simulator/simulator.py:30-31 | a populated vehicle is stored under its id, as a new idle vehicle at the location; the stores stay well formed |
| `Simulation.Simulator.CurrentTime` | src/simulator/simulator.py:107-109 | the current time is the clock of the driver's state |
| `Simulation.Simulator.UpdateTime` | src/simulator/simulator.py:94-95 | the clock moves on by exactly `dt`, and nothing else changes |
| `Simulation.Simulator.PopulateNewCustomers` | src/simulator/simulator.py:97-99 | the customers the generator produces for the current `(t, dt)` are merged into the customer store |
| `Simulation.Simulator.StepCustomers` | src/simulator/simulator.py:35-38 | the customer loop leaves the customer store equal to the customer sweep of the pure layer over the store's ids |
| `Simulation.Simulator.StepVehicles` | src/simulator/simulator.py:40-45 | the vehicle loop leaves the vehicle store equal to the vehicle sweep, and appends to the score log exactly the score records of the exiting vehicles, stamped with the current time |
| `Simulation.Simulator.Step` | src/simulator/simulator.py:34-48 | one step moves the driver's state to `Tick` of the old state and appends the tick's score records to the score log; no order or routing call is issued |
| `Simulation.Simulator.MatchVehicles` | src/simulator/simulator.py:52-65 | a match batch leaves the stores as `MatchAll` of the old stores and appends exactly its orders to the order log; clock, score log and routing calls are unchanged |
| `Simulation.Simulator.GroupDispatch` | src/simulator/simulator.py:69-86 | the first dispatch loop leaves the vehicles as `Group` of the old store and returns the queued vehicles and pairs `Group` computes |
| `Simulation.Simulator.CruiseQueued` | src/simulator/simulator.py:89-92 | the zip loop leaves the vehicles as `CruiseAll` over the first `min(queued, results)` positions |
| `Simulation.Simulator.DispatchVehicles` | src/simulator/simulator.py:68-92 | a dispatch batch leaves the vehicles as `Dispatch` of the old store; it appends exactly its orders to the order log and exactly one routing call, with the batch's request, even when that request is empty; customers and clock are unchanged |

## Left out

- Logging: `sim_logger.setup_logging`, the logger, the warnings for unknown ids, and the hourly "Elapsed" heartbeat with `get_local_datetime` (lines 15-16, 49-50, 56, 60, 74). These are side-channel I/O. `log_score` is modelled as appending to a ghost log of records; the string formatting and transport are left out (lines 43-44).
- `sample_pickup_duration` (lines 104-105): a floating-point exponential draw that the driver itself never calls.
- The unused `self.route_cache` dictionary (line 19) and the commented-out bulk `log_score` (lines 118-121).
- `get_new_requests` and `get_vehicles_state` (lines 111-115): pass-through reads of repository internals.
- The vehicle and customer repositories, the demand generator and the routing engine are not part of this model. The stores are values with put, delete and merge as functions. The generator, `route` and `get_route_cache` are total functions in `Env`. A cache miss in `get_route_cache` is not modelled.
- `populate_vehicle` is assumed to store a new idle vehicle under the id, overwriting an existing entry with the same id. The repository's own behaviour is not visible.
- `update_customers` is assumed to put each generated customer under its id in order, a later one with the same id winning. The generator is assumed to return the customers with their ids.
- What an entity does inside `step`, `head_for_customer`, `wait_for_vehicle`, `cruise` and `take_rest` is abstracted. Each entity carries an opaque internal state, `Entities.Memory`, for what the driver never reads: timers, a remembered route, a rest duration. A vehicle's step may change anything of the vehicle. A customer's step, and each order or wait, reads the whole entity and changes only its phase and internal state. So a customer can time out and a rest can end, but the model does not say when. The customer's origin and the vehicle's location are assumed fixed under orders. A new vehicle starts in the internal state `Env.initialMemory`.
- `route` is not assumed to answer with as many results as it was given pairs. The zip in lines 89-92 is modelled as stopping at the shorter of the two lists.
- `sample_off_duration`: numpy's random draw is a caller-supplied sequence indexed by command position, with its range as a precondition. With `OFF_DURATION` below 1 the range is empty, and `randint` would raise an error. The model has no such error: no draws can meet the precondition then, unless the batch has no off-duty command for a known vehicle.
- Commands as dictionaries: each dispatch command is one of three tagged shapes, following the source's key precedence (`offduty`, then `cache_key`, else `destination`). A dictionary missing the keys its shape needs is not modelled.
- Coordinates are pairs of reals that the driver only passes along. Durations, times and trip times are unbounded integers, so float times and float trip times are not modelled.
- Vehicle and customer ids are integers, while the source accepts any hashable key. A score is a sequence of integers, while the source joins any values with `str`. The score record is modelled as that sequence of fields, not as the comma-joined string.
- `OffDurationLow` and `OffDurationHigh` take the float bounds `OFF_DURATION / 2` and `OFF_DURATION * 3 / 2` as the whole numbers they truncate to. This assumes numpy converts a non-integral float bound by truncation.
