/**
 * The simulation driver of the fleet-dispatch simulator: it owns the clock
 * and the timestep, steps every tracked entity once per tick, removes the
 * terminal ones, pulls in new demand, and applies the match and dispatch
 * decisions of an external policy.
 *
 * Each method is proved against the function in `Tick` or `Commands` that
 * gives its meaning; the properties of the driver are lemmas about those
 * functions.  The orders issued to entities, the score log and the routing
 * requests are kept as ghost logs.
 */
module Simulation {

  import opened Wrappers
  import opened Entities
  import opened Stores
  import opened Ticks
  import opened Commands

  class Simulator {
    var t: int
    var dt: int
    var vehicles: Store<Vehicle>
    var customers: Store<Customer>
    const env: Env

    /** Every order issued to a vehicle or customer, in issue order. */
    ghost var issued: seq<Issued>
    /** The score records sent to the score log. */
    ghost var scoreLog: seq<seq<int>>
    /** The argument of every batched routing call. */
    ghost var routeCalls: seq<seq<OdPair>>

    ghost predicate Valid()
      reads this
    {
      WorldValid(State())
    }

    function State(): World
      reads this
    {
      World(t, dt, vehicles, customers)
    }

    /** `Simulator(start_time, timestep)`: a reset with both values given, on fresh stores. */
    constructor (startTime: int, timestep: int, env: Env)
      ensures Valid() && this.env == env
      ensures State() == World(startTime, timestep, Empty(), Empty())
      ensures issued == [] && scoreLog == [] && routeCalls == []
    {
      this.env := env;
      t, dt := startTime, timestep;
      vehicles, customers := Empty(), Empty();
      issued, scoreLog, routeCalls := [], [], [];
    }

    /** Clears both stores; the clock and the timestep are overwritten only when given. */
    method Reset(startTime: Option<int>, timestep: Option<int>)
      modifies this`t, this`dt, this`vehicles, this`customers
      ensures Valid()
      ensures t == (if startTime.Some? then startTime.value else old(t))
      ensures dt == (if timestep.Some? then timestep.value else old(dt))
      ensures vehicles == Empty() && customers == Empty()
    {
      if startTime.Some? {
        t := startTime.value;
      }
      if timestep.Some? {
        dt := timestep.value;
      }
      vehicles := Empty();
      customers := Empty();
    }

    /** Puts a new idle vehicle at `location` into the vehicle store. */
    method PopulateVehicle(id: VehicleId, location: Point)
      requires Valid()
      modifies this`vehicles
      ensures Valid()
      ensures vehicles == Put(old(vehicles), id, NewVehicle(location, env.initialMemory))
    {
      vehicles := Put(vehicles, id, NewVehicle(location, env.initialMemory));
    }

    /** The current simulated time. */
    function CurrentTime(): (r: int)
      reads this
      ensures r == State().t
    {
      t
    }

    method UpdateTime()
      modifies this`t
      ensures t == old(t) + dt
    {
      t := t + dt;
    }

    /** Merges the customers the demand generator produces for `(t, dt)` into the customer store. */
    method PopulateNewCustomers()
      requires Valid()
      modifies this`customers
      ensures Valid()
      ensures customers == Merge(old(customers), env.generate(t, dt))
    {
      var arrivals := env.generate(t, dt);
      customers := Merge(customers, arrivals);
    }

    /** The customer pass of a tick: every customer is stepped, the arrived and disappeared ones deleted. */
    method StepCustomers()
      requires Valid()
      modifies this`customers
      ensures Valid()
      ensures customers == Sweep(old(customers), old(customers).ids, CustomerStep(dt, env), IsTerminal)
    {
      var snapshot := customers;
      var stepCustomer := CustomerStep(dt, env);
      var cs := snapshot;
      var i := 0;
      while i < |snapshot.ids|
        invariant 0 <= i <= |snapshot.ids|
        invariant forall id | id in snapshot.ids[..i] :: id in snapshot.items
        invariant cs == Sweep(snapshot, snapshot.ids[..i], stepCustomer, IsTerminal)
      {
        var id := snapshot.ids[i];
        assert snapshot.ids[..i + 1] == snapshot.ids[..i] + [id];
        var customer := stepCustomer(snapshot.items[id]);
        if customer.IsArrived() || customer.IsDisappeared() {
          cs := Remove(cs, id);
        } else {
          cs := Put(cs, id, customer);
        }
        i := i + 1;
      }
      assert snapshot.ids[..i] == snapshot.ids;
      customers := cs;
    }

    /**
     * The vehicle pass of a tick: every vehicle is stepped; one that exits
     * the market is scored at the current time and deleted.
     */
    method StepVehicles()
      requires Valid()
      modifies this`vehicles, this`scoreLog
      ensures Valid()
      ensures vehicles == Sweep(old(vehicles), old(vehicles).ids, VehicleStep(dt, env), HasExited)
      ensures scoreLog == old(scoreLog) + ExitRecords(old(vehicles), old(vehicles).ids, t, VehicleStep(dt, env))
    {
      var fleet := vehicles;
      var stepVehicle := VehicleStep(dt, env);
      var vs := fleet;
      ghost var records: seq<seq<int>> := [];
      var i := 0;
      while i < |fleet.ids|
        invariant 0 <= i <= |fleet.ids|
        invariant forall id | id in fleet.ids[..i] :: id in fleet.items
        invariant vs == Sweep(fleet, fleet.ids[..i], stepVehicle, HasExited)
        invariant records == ExitRecords(fleet, fleet.ids[..i], t, stepVehicle)
      {
        var id := fleet.ids[i];
        assert fleet.ids[..i + 1] == fleet.ids[..i] + [id];
        var vehicle := stepVehicle(fleet.items[id]);
        if vehicle.exitMarket {
          records := records + [ScoreRecord(CurrentTime(), id, vehicle.score)];
          vs := Remove(vs, id);
        } else {
          vs := Put(vs, id, vehicle);
        }
        i := i + 1;
      }
      assert fleet.ids[..i] == fleet.ids;
      vehicles := vs;
      scoreLog := scoreLog + records;
    }

    /** One tick: customers, then vehicles, then new demand, then the clock. */
    method Step()
      requires Valid()
      modifies this`t, this`vehicles, this`customers, this`scoreLog
      ensures Valid()
      ensures State() == Tick(old(State()), env).world
      ensures scoreLog == old(scoreLog) + Tick(old(State()), env).scores
    {
      StepCustomers();
      StepVehicles();
      PopulateNewCustomers();
      UpdateTime();
    }

    /**
     * Applies a batch of match decisions in order; a command with an unknown
     * vehicle or customer id is skipped and the rest still run.
     */
    method MatchVehicles(commands: seq<MatchCommand>)
      requires Valid()
      modifies this`vehicles, this`customers, this`issued
      ensures Valid()
      ensures var r := MatchAll(old(vehicles), old(customers), commands, env);
              vehicles == r.vehicles && customers == r.customers && issued == old(issued) + r.issued
    {
      var vs, cs := vehicles, customers;
      ghost var log: seq<Issued> := [];
      for i := 0 to |commands|
        invariant MatchAll(vehicles, customers, commands[..i], env) == MatchResult(vs, cs, log)
      {
        var cmd := commands[i];
        assert commands[..i + 1] == commands[..i] + [cmd];
        if cmd.vehicle !in vs.items {
          continue;
        }
        if cmd.customer !in cs.items {
          continue;
        }
        var origin := cs.items[cmd.customer].origin;
        var order := HeadFor(origin, cmd.duration, cmd.customer);
        vs := Obey(vs, cmd.vehicle, order, env);
        cs := WaitFor(cs, cmd.customer, cmd.duration, env);
        log := log + [ToVehicle(cmd.vehicle, order), WaitForVehicle(cmd.customer, cmd.duration)];
      }
      assert commands[..|commands|] == commands;
      vehicles, customers := vs, cs;
      issued := issued + log;
    }

    /**
     * The first pass of a dispatch batch: off-duty and cached-route commands
     * are applied at once; destination commands are queued with their
     * origin-destination pair for the batched routing call.
     */
    method GroupDispatch(commands: seq<DispatchCommand>, offDurations: seq<int>)
      returns (queued: seq<VehicleId>, odPairs: seq<OdPair>)
      requires Valid()
      requires |commands| <= |offDurations|
      modifies this`vehicles, this`issued
      ensures Valid()
      ensures var g := Group(old(vehicles), commands, offDurations, env);
              vehicles == g.vehicles && issued == old(issued) + g.issued && queued == g.pending && odPairs == g.odPairs
    {
      var vs := vehicles;
      odPairs, queued := [], [];
      ghost var log: seq<Issued> := [];
      for i := 0 to |commands|
        invariant Group(vehicles, commands[..i], offDurations, env) == Grouping(vs, log, queued, odPairs)
      {
        var cmd := commands[i];
        assert commands[..i + 1] == commands[..i] + [cmd];
        if cmd.vehicle !in vs.items {
          continue;
        }
        match cmd
        case OffDutyCommand(v) =>
          var order := TakeRest(offDurations[i]);
          vs := Obey(vs, v, order, env);
          log := log + [ToVehicle(v, order)];
        case CachedRouteCommand(v, from, to) =>
          var cached := env.routeCache(from, to);
          var order := Cruise(cached.route, cached.triptime);
          vs := Obey(vs, v, order, env);
          log := log + [ToVehicle(v, order)];
        case DestinationCommand(v, to) =>
          queued := queued + [v];
          odPairs := odPairs + [OdPair(vs.items[v].location, to)];
      }
      assert commands[..|commands|] == commands;
      vehicles := vs;
      issued := issued + log;
    }

    /**
     * The second pass of a dispatch batch: the queued vehicles and the
     * routing results are paired up to the shorter of the two; each pair
     * with a non-zero trip time makes the vehicle cruise.
     */
    method CruiseQueued(queued: seq<VehicleId>, routes: seq<RouteResult>)
      requires Valid()
      requires forall id | id in queued :: id in vehicles.items
      modifies this`vehicles, this`issued
      ensures Valid()
      ensures var c := CruiseAll(old(vehicles), queued, routes, Min(|queued|, |routes|), env);
              vehicles == c.vehicles && issued == old(issued) + c.issued
    {
      var vs := vehicles;
      ghost var log: seq<Issued> := [];
      var n := Min(|queued|, |routes|);
      assert n <= |queued| && n <= |routes|;
      for i := 0 to n
        invariant forall id | id in queued :: id in vs.items
        invariant CruiseAll(vehicles, queued, routes, i, env) == CruiseResult(vs, log)
      {
        var result := routes[i];
        if result.triptime == 0 {
          continue;
        }
        var order := Cruise(result.route, result.triptime);
        vs := Obey(vs, queued[i], order, env);
        log := log + [ToVehicle(queued[i], order)];
      }
      vehicles := vs;
      issued := issued + log;
    }

    /**
     * Applies a batch of dispatch decisions: off-duty and cached-route
     * commands at once, destination commands through one batched routing
     * call.  `offDurations[k]` is the sampler's draw for the command at
     * position k, used when that command is an off-duty one for a known
     * vehicle.
     */
    method DispatchVehicles(commands: seq<DispatchCommand>, offDurations: seq<int>)
      requires Valid()
      requires |offDurations| == |commands|
      requires forall k | 0 <= k < |commands| && commands[k].OffDutyCommand? && commands[k].vehicle in vehicles.items ::
                 OffDurationLow(env.offDuration) <= offDurations[k] < OffDurationHigh(env.offDuration)
      modifies this`vehicles, this`issued, this`routeCalls
      ensures Valid()
      ensures var r := Dispatch(old(vehicles), commands, offDurations, env);
              vehicles == r.vehicles && issued == old(issued) + r.issued && routeCalls == old(routeCalls) + [r.request]
    {
      var queued, odPairs := GroupDispatch(commands, offDurations);
      var routes := env.route(odPairs);
      routeCalls := routeCalls + [odPairs];
      CruiseQueued(queued, routes);
      DispatchByPasses(old(vehicles), commands, offDurations, env);
    }
  }
}
