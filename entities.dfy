/**
 * The entities and collaborators the simulation driver talks to.
 *
 * Vehicles and customers own their state machines; the driver only polls a
 * few of their values (location, origin, arrived, disappeared, exit-market,
 * score) and issues orders to them.  Everything else an entity keeps (its
 * timers, a remembered route or rest duration) is its `Memory`, which the
 * driver never reads.  What an entity does with an order or with the
 * passing of time is external: it is given by the functions of `Env`, which
 * the driver receives and never looks inside.
 */
module Entities {

  type VehicleId = int
  type CustomerId = int

  /** A map position; the driver only passes positions along. */
  datatype Point = Point(lon: real, lat: real)

  /** The internal state of an entity, opaque to the driver. */
  type Memory(!new)

  /** The vehicle states of the fleet model; owned by the vehicle, never set by the driver. */
  datatype VehiclePhase = Idle | Cruising | HeadingToCustomer | OffDuty

  /** What the driver can see of a vehicle. */
  datatype Vehicle = Vehicle(location: Point, phase: VehiclePhase, exitMarket: bool, score: seq<int>, memory: Memory)

  /**
   * A vehicle put into the store by `populate_vehicle`: idle, at the given
   * location, with the internal state the repository starts vehicles in.
   */
  function NewVehicle(location: Point, memory: Memory): (v: Vehicle)
    ensures v.location == location && v.phase == Idle && !v.exitMarket && v.memory == memory
  {
    Vehicle(location, Idle, false, [], memory)
  }

  /** The customer states; arrived and disappeared are the two terminal ones. */
  datatype CustomerPhase = Waiting | WaitingForVehicle | Riding | Arrived | Disappeared

  /** What the driver can see of a customer. */
  datatype Customer = Customer(origin: Point, phase: CustomerPhase, memory: Memory) {
    predicate IsArrived() { phase == Arrived }
    predicate IsDisappeared() { phase == Disappeared }
  }

  /** The orders a vehicle accepts from the driver. */
  datatype VehicleOrder =
    | HeadFor(origin: Point, duration: int, customer: CustomerId)
    | Cruise(route: seq<Point>, triptime: int)
    | TakeRest(duration: int)

  /** One entry of the log of orders the driver issued to entities. */
  datatype Issued =
    | ToVehicle(vehicle: VehicleId, order: VehicleOrder)
    | WaitForVehicle(customer: CustomerId, duration: int)

  /** A request to the routing engine and one of its answers. */
  datatype OdPair = OdPair(origin: Point, destination: Point)
  datatype RouteResult = RouteResult(route: seq<Point>, triptime: int)

  /** A match decision of the external policy. */
  datatype MatchCommand = MatchCommand(vehicle: VehicleId, customer: CustomerId, duration: int)

  /**
   * A dispatch decision of the external policy: exactly one of the three
   * shapes, told apart in the source by the key `offduty`, then `cache_key`,
   * then `destination`.
   */
  datatype DispatchCommand =
    | OffDutyCommand(vehicle: VehicleId)
    | CachedRouteCommand(vehicle: VehicleId, origin: Point, destination: Point)
    | DestinationCommand(vehicle: VehicleId, destination: Point)

  /**
   * The collaborators: the entities' own reactions, the demand generator,
   * the routing engine (batched call and cache) and the configured base
   * off-duty duration.  A customer's step and an entity's reaction to an
   * order may read the whole entity and yield its new phase and memory.
   * The demand generator answers with the new customers for an interval,
   * each with the id it is to be stored under.
   */
  datatype Env = Env(
    advanceVehicle: (Vehicle, int) -> Vehicle,
    advanceCustomer: (Customer, int) -> (CustomerPhase, Memory),
    vehicleObeys: (Vehicle, VehicleOrder) -> (VehiclePhase, Memory),
    customerWaits: (Customer, int) -> (CustomerPhase, Memory),
    initialMemory: Memory,
    generate: (int, int) -> seq<(CustomerId, Customer)>,
    route: seq<OdPair> -> seq<RouteResult>,
    routeCache: (Point, Point) -> RouteResult,
    offDuration: nat)

  /** A score record: the current time, the vehicle id, then the score components. */
  function ScoreRecord(t: int, id: VehicleId, score: seq<int>): (r: seq<int>)
    ensures |r| == |score| + 2 && r[0] == t && r[1] == id && r[2..] == score
  {
    [t, id] + score
  }
}
