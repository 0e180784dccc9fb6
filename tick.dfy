/**
 * The semantics of one simulation tick (`Simulator.step`) as a function on
 * the simulator's state: customers first, then vehicles, then new demand,
 * then the clock.
 */
module Ticks {

  import opened Entities
  import opened Stores

  /** The simulator's state: the clock, the timestep and the two stores. */
  datatype World = World(t: int, dt: int, vehicles: Store<Vehicle>, customers: Store<Customer>)

  predicate WorldValid(w: World) {
    Valid(w.vehicles) && Valid(w.customers)
  }

  /** `customer.step(dt)`: the customer's own state machine moves on; its origin stays. */
  function CustomerStep(dt: int, env: Env): (r: Customer -> Customer)
    ensures forall c: Customer :: r(c).origin == c.origin
  {
    (c: Customer) => var next := env.advanceCustomer(c, dt); Customer(c.origin, next.0, next.1)
  }

  /** The removal test of the customer pass: arrived or disappeared. */
  predicate IsTerminal(c: Customer) {
    c.IsArrived() || c.IsDisappeared()
  }

  /** `vehicle.step(dt)`. */
  function VehicleStep(dt: int, env: Env): Vehicle -> Vehicle {
    (v: Vehicle) => env.advanceVehicle(v, dt)
  }

  /** The removal test of the vehicle pass. */
  predicate HasExited(v: Vehicle) {
    v.exitMarket
  }

  /** The ids of `order`, in order, whose vehicle exits the market once advanced. */
  function Exiting(s0: Store<Vehicle>, order: seq<VehicleId>, advance: Vehicle -> Vehicle): (r: seq<VehicleId>)
    requires forall id | id in order :: id in s0.items
    ensures forall id :: id in r <==> id in order && advance(s0.items[id]).exitMarket
    decreases |order|
  {
    if order == [] then []
    else
      var id := order[|order| - 1];
      assert order == order[..|order| - 1] + [id];
      var rest := Exiting(s0, order[..|order| - 1], advance);
      if advance(s0.items[id]).exitMarket then rest + [id] else rest
  }

  lemma {:induction false} ExitingDistinct(s0: Store<Vehicle>, order: seq<VehicleId>, advance: Vehicle -> Vehicle)
    requires forall id | id in order :: id in s0.items
    requires Distinct(order)
    ensures Distinct(Exiting(s0, order, advance))
    decreases |order|
  {
    if order != [] {
      var n := |order| - 1;
      ExitingDistinct(s0, order[..n], advance);
      assert order[n] !in order[..n];
    }
  }

  /** The score records the vehicle pass emits, in iteration order, stamped with time `t`. */
  function ExitRecords(s0: Store<Vehicle>, order: seq<VehicleId>, t: int, advance: Vehicle -> Vehicle): (r: seq<seq<int>>)
    requires forall id | id in order :: id in s0.items
    ensures |r| <= |order|
    ensures forall k | 0 <= k < |r| :: |r[k]| >= 2 && r[k][0] == t && r[k][1] in order
    ensures Distinct(order) ==> forall j, k | 0 <= j < k < |r| :: r[j][1] != r[k][1]
    decreases |order|
  {
    if order == [] then []
    else
      var id := order[|order| - 1];
      var v := advance(s0.items[id]);
      var rest := ExitRecords(s0, order[..|order| - 1], t, advance);
      if v.exitMarket then rest + [ScoreRecord(t, id, v.score)] else rest
  }

  /** The k-th score record belongs to the k-th exiting vehicle and carries its score after the step. */
  lemma {:induction false} ExitRecordsSpec(s0: Store<Vehicle>, order: seq<VehicleId>, t: int, advance: Vehicle -> Vehicle)
    requires forall id | id in order :: id in s0.items
    ensures var recs := ExitRecords(s0, order, t, advance);
            var ex := Exiting(s0, order, advance);
            && |recs| == |ex|
            && forall k | 0 <= k < |ex| :: recs[k] == ScoreRecord(t, ex[k], advance(s0.items[ex[k]]).score)
    decreases |order|
  {
    if order != [] {
      ExitRecordsSpec(s0, order[..|order| - 1], t, advance);
    }
  }

  datatype TickResult = TickResult(world: World, scores: seq<seq<int>>)

  /**
   * One tick: every customer is stepped and the arrived or disappeared ones
   * are deleted; then every vehicle is stepped and each one that exits the
   * market is scored (at the current time) and deleted; then the customers
   * the demand generator produces for `(t, dt)` are merged in; then the
   * clock moves on by `dt`.
   */
  function Tick(w: World, env: Env): (r: TickResult)
    requires WorldValid(w)
    ensures WorldValid(r.world)
  {
    var customers := Sweep(w.customers, w.customers.ids, CustomerStep(w.dt, env), IsTerminal);
    var vehicles := Sweep(w.vehicles, w.vehicles.ids, VehicleStep(w.dt, env), HasExited);
    var scores := ExitRecords(w.vehicles, w.vehicles.ids, w.t, VehicleStep(w.dt, env));
    var merged := Merge(customers, env.generate(w.t, w.dt));
    TickResult(World(w.t + w.dt, w.dt, vehicles, merged), scores)
  }

  /**
   * After a tick a customer is stored exactly when it was produced by the
   * demand generator for this tick, or it was stored before and is neither
   * arrived nor disappeared after its step.  A new customer is stored as
   * generated (not stepped); a surviving one in its stepped state.
   */
  lemma TickCustomers(w: World, env: Env)
    requires WorldValid(w)
    ensures var r := Tick(w, env).world;
            var arrivals := env.generate(w.t, w.dt);
            var step := CustomerStep(w.dt, env);
            && (forall id :: id in r.customers.items <==>
                  Latest(arrivals, id).Some? || (id in w.customers.items && !IsTerminal(step(w.customers.items[id]))))
            && (forall id | Latest(arrivals, id).Some? :: r.customers.items[id] == Latest(arrivals, id).value)
            && (forall id | id in r.customers.items && Latest(arrivals, id).None? ::
                  r.customers.items[id] == step(w.customers.items[id]))
  {
    var s0 := w.customers;
    var step := CustomerStep(w.dt, env);
    SweepRemovesExactlyTheDone(s0, s0.ids, step, IsTerminal);
    var swept := Sweep(s0, s0.ids, step, IsTerminal);
    MergeSpec(swept, env.generate(w.t, w.dt));
  }

  /**
   * After a tick a vehicle is stored exactly when it was stored before and
   * does not exit the market after its step; survivors keep their order and
   * are stored stepped.  The exiting vehicles, listed in iteration order
   * without repetition, each get exactly one score record, stamped with the
   * time before the clock moves on.
   */
  lemma TickVehicles(w: World, env: Env)
    requires WorldValid(w)
    ensures var r := Tick(w, env);
            var s0 := w.vehicles;
            var step := VehicleStep(w.dt, env);
            var ex := Exiting(s0, s0.ids, step);
            && (forall id :: id in r.world.vehicles.items <==> id in s0.items && !step(s0.items[id]).exitMarket)
            && (forall id | id in r.world.vehicles.items :: r.world.vehicles.items[id] == step(s0.items[id]))
            && r.world.vehicles.ids == Without(s0.ids, set id | id in ex)
            && Distinct(ex)
            && (forall id :: id in ex <==> id in s0.items && step(s0.items[id]).exitMarket)
            && |r.scores| == |ex|
            && (forall k | 0 <= k < |ex| :: r.scores[k] == ScoreRecord(w.t, ex[k], step(s0.items[ex[k]]).score))
  {
    var s0 := w.vehicles;
    var step := VehicleStep(w.dt, env);
    SweepRemovesExactlyTheDone(s0, s0.ids, step, HasExited);
    ExitingDistinct(s0, s0.ids, step);
    ExitRecordsSpec(s0, s0.ids, w.t, step);
    var ex := Exiting(s0, s0.ids, step);
    assert (set id | id in ex) == Departed(s0, s0.ids, step, HasExited);
  }

  /** `n` ticks in a row. */
  function Run(w: World, env: Env, n: nat): (r: World)
    requires WorldValid(w)
    ensures WorldValid(r)
    decreases n
  {
    if n == 0 then w else Run(Tick(w, env).world, env, n - 1)
  }

  /** Every tick moves the clock by exactly the timestep: after `n` ticks it reads `t + n * dt`. */
  lemma {:induction false} RunClock(w: World, env: Env, n: nat)
    requires WorldValid(w)
    ensures Run(w, env, n).t == w.t + n * w.dt && Run(w, env, n).dt == w.dt
    decreases n
  {
    if n > 0 {
      var w' := Tick(w, env).world;
      RunClock(w', env, n - 1);
      assert w.t + n * w.dt == w'.t + (n - 1) * w'.dt;
    }
  }
}
