/**
 * The semantics of the two command entry points, `match_vehicles` and
 * `dispatch_vehicles`, as functions on the stores, with the log of the
 * orders they issue to entities.
 */
module Commands {

  import opened Entities
  import opened Stores

  /**
   * `b` holds the same vehicles as `a`, in the same order, and differs from
   * it at most in their phases and internal states: no vehicle moves, exits
   * or changes score.
   */
  predicate PhasesOnly(a: Store<Vehicle>, b: Store<Vehicle>) {
    && b.ids == a.ids && b.items.Keys == a.items.Keys
    && forall id | id in a.items :: b.items[id] == a.items[id].(phase := b.items[id].phase, memory := b.items[id].memory)
  }

  lemma PhasesOnlyTrans(a: Store<Vehicle>, b: Store<Vehicle>, c: Store<Vehicle>)
    requires PhasesOnly(a, b) && PhasesOnly(b, c)
    ensures PhasesOnly(a, c)
  {
  }

  /** A vehicle takes an order: only its own phase and memory move, as its state machine decides. */
  function Obey(s: Store<Vehicle>, id: VehicleId, order: VehicleOrder, env: Env): (r: Store<Vehicle>)
    requires id in s.items
    ensures r.ids == s.ids && r.items.Keys == s.items.Keys
    ensures r.items == s.items[id := r.items[id]] && r.items[id] == s.items[id].(phase := r.items[id].phase, memory := r.items[id].memory)
  {
    var v := s.items[id];
    var next := env.vehicleObeys(v, order);
    Store(s.ids, s.items[id := v.(phase := next.0, memory := next.1)])
  }

  /** `customer.wait_for_vehicle(duration)`: only the customer's own phase and memory move. */
  function WaitFor(s: Store<Customer>, id: CustomerId, duration: int, env: Env): (r: Store<Customer>)
    requires id in s.items
    ensures r.ids == s.ids && r.items.Keys == s.items.Keys
    ensures r.items == s.items[id := r.items[id]] && r.items[id].origin == s.items[id].origin
  {
    var c := s.items[id];
    var next := env.customerWaits(c, duration);
    Store(s.ids, s.items[id := c.(phase := next.0, memory := next.1)])
  }

  // ---------------------------------------------------------------- matching

  datatype MatchResult = MatchResult(vehicles: Store<Vehicle>, customers: Store<Customer>, issued: seq<Issued>)

  /** Both ids of the command are in the stores. */
  predicate Known(cmd: MatchCommand, vehicles: Store<Vehicle>, customers: Store<Customer>) {
    cmd.vehicle in vehicles.items && cmd.customer in customers.items
  }

  /**
   * One match command against what the batch has done so far: a command
   * whose vehicle id or customer id is unknown is skipped; otherwise the
   * vehicle heads for the customer's origin and the customer waits, both for
   * the command's duration.
   */
  function MatchStep(p: MatchResult, cmd: MatchCommand, env: Env): (r: MatchResult)
    ensures r.vehicles.ids == p.vehicles.ids && r.vehicles.items.Keys == p.vehicles.items.Keys
    ensures r.customers.ids == p.customers.ids && r.customers.items.Keys == p.customers.items.Keys
    ensures !Known(cmd, p.vehicles, p.customers) ==> r == p
  {
    if cmd.vehicle !in p.vehicles.items then p
    else if cmd.customer !in p.customers.items then p
    else
      var origin := p.customers.items[cmd.customer].origin;
      var order := HeadFor(origin, cmd.duration, cmd.customer);
      MatchResult(Obey(p.vehicles, cmd.vehicle, order, env),
                  WaitFor(p.customers, cmd.customer, cmd.duration, env),
                  p.issued + [ToVehicle(cmd.vehicle, order), WaitForVehicle(cmd.customer, cmd.duration)])
  }

  /** The match batch, command by command. */
  function MatchAll(vs: Store<Vehicle>, cs: Store<Customer>, cmds: seq<MatchCommand>, env: Env): (r: MatchResult)
    ensures r.vehicles.ids == vs.ids && r.vehicles.items.Keys == vs.items.Keys
    ensures r.customers.ids == cs.ids && r.customers.items.Keys == cs.items.Keys
    decreases |cmds|
  {
    if cmds == [] then MatchResult(vs, cs, [])
    else MatchStep(MatchAll(vs, cs, cmds[..|cmds| - 1], env), cmds[|cmds| - 1], env)
  }

  /**
   * A match batch keeps every vehicle and customer: the vehicles differ at
   * most in their phases and internal states, and no customer's origin
   * changes.
   */
  lemma {:induction false} MatchKeepsPlaces(vs: Store<Vehicle>, cs: Store<Customer>, cmds: seq<MatchCommand>, env: Env)
    ensures var r := MatchAll(vs, cs, cmds, env);
            && PhasesOnly(vs, r.vehicles)
            && forall id | id in cs.items :: r.customers.items[id].origin == cs.items[id].origin
    decreases |cmds|
  {
    if cmds != [] {
      var p := MatchAll(vs, cs, cmds[..|cmds| - 1], env);
      MatchKeepsPlaces(vs, cs, cmds[..|cmds| - 1], env);
      var r := MatchAll(vs, cs, cmds, env);
      assert PhasesOnly(p.vehicles, r.vehicles);
      PhasesOnlyTrans(vs, p.vehicles, r.vehicles);
    }
  }

  /** A non-empty batch is its last command applied after the rest. */
  lemma MatchAllLast(vs: Store<Vehicle>, cs: Store<Customer>, cmds: seq<MatchCommand>, env: Env)
    requires cmds != []
    ensures MatchAll(vs, cs, cmds, env) == MatchStep(MatchAll(vs, cs, cmds[..|cmds| - 1], env), cmds[|cmds| - 1], env)
  {
  }

  /** The two orders a known match command issues; nothing for an unknown one. */
  function PairOrders(cmd: MatchCommand, vs: Store<Vehicle>, cs: Store<Customer>): (r: seq<Issued>)
    ensures Known(cmd, vs, cs) ==> && |r| == 2 && r[0].ToVehicle? && r[0].order.HeadFor? && r[1].WaitForVehicle?
                                   && r[0].vehicle == cmd.vehicle && r[1].customer == cmd.customer
                                   && r[0].order.origin == cs.items[cmd.customer].origin
                                   && r[0].order.customer == cmd.customer
                                   && r[0].order.duration == r[1].duration == cmd.duration
    ensures !Known(cmd, vs, cs) ==> r == []
  {
    if Known(cmd, vs, cs) then
      [ToVehicle(cmd.vehicle, HeadFor(cs.items[cmd.customer].origin, cmd.duration, cmd.customer)),
       WaitForVehicle(cmd.customer, cmd.duration)]
    else []
  }

  /** What a batch issues, read off each command against the stores the batch starts from. */
  function MatchOrders(cmds: seq<MatchCommand>, vs: Store<Vehicle>, cs: Store<Customer>): seq<Issued>
    decreases |cmds|
  {
    if cmds == [] then []
    else MatchOrders(cmds[..|cmds| - 1], vs, cs) + PairOrders(cmds[|cmds| - 1], vs, cs)
  }

  /**
   * A match batch issues, for each command in turn, exactly the orders of
   * that command alone: nothing for an unknown vehicle or customer id, and
   * otherwise "head for the customer's origin" and "wait for vehicle", with
   * the same duration.
   */
  lemma {:induction false} MatchIssuesPerCommand(vs: Store<Vehicle>, cs: Store<Customer>, cmds: seq<MatchCommand>, env: Env)
    ensures MatchAll(vs, cs, cmds, env).issued == MatchOrders(cmds, vs, cs)
    decreases |cmds|
  {
    if cmds != [] {
      MatchIssuesPerCommand(vs, cs, cmds[..|cmds| - 1], env);
      MatchKeepsPlaces(vs, cs, cmds[..|cmds| - 1], env);
    }
  }

  /** An unknown command anywhere in a batch has no effect on what the rest of the batch does. */
  lemma {:induction false} MatchSkipsUnknown(vs: Store<Vehicle>, cs: Store<Customer>, before: seq<MatchCommand>,
                                             bad: MatchCommand, after: seq<MatchCommand>, env: Env)
    requires !Known(bad, vs, cs)
    ensures MatchAll(vs, cs, before + [bad] + after, env) == MatchAll(vs, cs, before + after, env)
    decreases |after|
  {
    var x, y := before + [bad] + after, before + after;
    if after == [] {
      assert x[..|x| - 1] == before && x[|x| - 1] == bad;
      MatchAllLast(vs, cs, x, env);
      assert y == before;
    } else {
      var n := |after| - 1;
      var xp, yp := before + [bad] + after[..n], before + after[..n];
      MatchSkipsUnknown(vs, cs, before, bad, after[..n], env);
      assert x[..|x| - 1] == xp && x[|x| - 1] == after[n];
      assert y[..|y| - 1] == yp && y[|y| - 1] == after[n];
      MatchAllLast(vs, cs, x, env);
      MatchAllLast(vs, cs, y, env);
    }
  }

  /** The vehicles named by known commands of the batch. */
  function MatchedVehicles(cmds: seq<MatchCommand>, vs: Store<Vehicle>, cs: Store<Customer>): set<VehicleId> {
    set k | 0 <= k < |cmds| && Known(cmds[k], vs, cs) :: cmds[k].vehicle
  }

  /** The customers named by known commands of the batch. */
  function MatchedCustomers(cmds: seq<MatchCommand>, vs: Store<Vehicle>, cs: Store<Customer>): set<CustomerId> {
    set k | 0 <= k < |cmds| && Known(cmds[k], vs, cs) :: cmds[k].customer
  }

  /** A match batch leaves every vehicle and customer that no known command names exactly as it was. */
  lemma {:induction false} MatchTouchesOnlyMatched(vs: Store<Vehicle>, cs: Store<Customer>, cmds: seq<MatchCommand>, env: Env)
    ensures var r := MatchAll(vs, cs, cmds, env);
            && (forall id | id in vs.items && id !in MatchedVehicles(cmds, vs, cs) :: r.vehicles.items[id] == vs.items[id])
            && (forall id | id in cs.items && id !in MatchedCustomers(cmds, vs, cs) :: r.customers.items[id] == cs.items[id])
    decreases |cmds|
  {
    if cmds != [] {
      var n := |cmds| - 1;
      MatchTouchesOnlyMatched(vs, cs, cmds[..n], env);
      assert MatchedVehicles(cmds[..n], vs, cs) <= MatchedVehicles(cmds, vs, cs);
      assert MatchedCustomers(cmds[..n], vs, cs) <= MatchedCustomers(cmds, vs, cs);
      if Known(cmds[n], vs, cs) {
        assert cmds[n].vehicle in MatchedVehicles(cmds, vs, cs);
        assert cmds[n].customer in MatchedCustomers(cmds, vs, cs);
      }
    }
  }

  // ---------------------------------------------------------------- dispatch

  // The bounds of `sample_off_duration`: `randint(OFF_DURATION / 2,
  // OFF_DURATION * 3 / 2)` draws from the half-open range between them, the
  // float bounds taken as the whole numbers they truncate to.

  /** The lower bound: `OFF_DURATION / 2`, truncated to a whole number. */
  function OffDurationLow(off: nat): (r: int)
    ensures 2 * r <= off < 2 * r + 2
  {
    off / 2
  }

  /** The upper bound: `OFF_DURATION * 3 / 2`, truncated to a whole number. */
  function OffDurationHigh(off: nat): (r: int)
    ensures 2 * r <= 3 * off < 2 * r + 2
  {
    off * 3 / 2
  }

  /** The range is exactly `off` wide, so it is non-empty once `off >= 1`; for 100 it is [50, 150). */
  lemma OffDurationRange(off: nat)
    ensures OffDurationHigh(off) - OffDurationLow(off) == off
    ensures OffDurationLow(100) == 50 && OffDurationHigh(100) == 150
  {
  }

  /** What the first pass of a dispatch batch has done so far. */
  datatype Grouping = Grouping(vehicles: Store<Vehicle>, issued: seq<Issued>, pending: seq<VehicleId>, odPairs: seq<OdPair>)

  /**
   * The first pass over a dispatch batch.  A command with an unknown vehicle
   * id is dropped.  An off-duty command sends the vehicle to rest for the
   * duration drawn for it (`offDurations[k]` for the command at position k);
   * a cached-route command makes it cruise along the route the routing
   * engine's cache holds for the key; a destination command is queued,
   * with the vehicle's current location and the destination, for the one
   * batched routing request.
   */
  function Group(vs: Store<Vehicle>, cmds: seq<DispatchCommand>, offDurations: seq<int>, env: Env): (r: Grouping)
    requires |cmds| <= |offDurations|
    ensures r.vehicles.ids == vs.ids && r.vehicles.items.Keys == vs.items.Keys
    ensures |r.pending| == |r.odPairs| && forall id | id in r.pending :: id in vs.items
    decreases |cmds|
  {
    if cmds == [] then Grouping(vs, [], [], [])
    else
      var k := |cmds| - 1;
      var p := Group(vs, cmds[..k], offDurations, env);
      var cmd := cmds[k];
      if cmd.vehicle !in p.vehicles.items then p
      else
        match cmd
        case OffDutyCommand(v) =>
          var order := TakeRest(offDurations[k]);
          p.(vehicles := Obey(p.vehicles, v, order, env), issued := p.issued + [ToVehicle(v, order)])
        case CachedRouteCommand(v, from, to) =>
          var cached := env.routeCache(from, to);
          var order := Cruise(cached.route, cached.triptime);
          p.(vehicles := Obey(p.vehicles, v, order, env), issued := p.issued + [ToVehicle(v, order)])
        case DestinationCommand(v, to) =>
          p.(pending := p.pending + [v], odPairs := p.odPairs + [OdPair(p.vehicles.items[v].location, to)])
  }

  /** The first pass changes the vehicles' phases and internal states only. */
  lemma {:induction false} GroupPhasesOnly(vs: Store<Vehicle>, cmds: seq<DispatchCommand>, offDurations: seq<int>, env: Env)
    requires |cmds| <= |offDurations|
    ensures PhasesOnly(vs, Group(vs, cmds, offDurations, env).vehicles)
    decreases |cmds|
  {
    if cmds != [] {
      var p := Group(vs, cmds[..|cmds| - 1], offDurations, env);
      GroupPhasesOnly(vs, cmds[..|cmds| - 1], offDurations, env);
      PhasesOnlyTrans(vs, p.vehicles, Group(vs, cmds, offDurations, env).vehicles);
    }
  }

  /** The destination commands of the batch whose vehicle id is known, in encounter order. */
  function DestinationGroup(cmds: seq<DispatchCommand>, vs: Store<Vehicle>): (r: seq<DispatchCommand>)
    ensures forall c | c in r :: c.DestinationCommand? && c.vehicle in vs.items
    decreases |cmds|
  {
    if cmds == [] then []
    else
      var cmd := cmds[|cmds| - 1];
      var rest := DestinationGroup(cmds[..|cmds| - 1], vs);
      if cmd.DestinationCommand? && cmd.vehicle in vs.items then rest + [cmd] else rest
  }

  /**
   * The batched routing request of a dispatch batch holds one pair per known
   * destination command, in encounter order: the vehicle's location and the
   * command's destination; the queued vehicles are those commands' vehicles,
   * position by position.  Off-duty, cached-route and unknown commands add
   * nothing to it.
   */
  lemma {:induction false} GroupRequest(vs: Store<Vehicle>, cmds: seq<DispatchCommand>, offDurations: seq<int>, env: Env)
    requires |cmds| <= |offDurations|
    ensures var g := Group(vs, cmds, offDurations, env);
            var dg := DestinationGroup(cmds, vs);
            && |g.odPairs| == |dg| && |g.pending| == |dg|
            && forall i | 0 <= i < |dg| ::
                 g.pending[i] == dg[i].vehicle
                 && g.odPairs[i] == OdPair(vs.items[dg[i].vehicle].location, dg[i].destination)
    decreases |cmds|
  {
    if cmds != [] {
      GroupRequest(vs, cmds[..|cmds| - 1], offDurations, env);
      GroupPhasesOnly(vs, cmds[..|cmds| - 1], offDurations, env);
    }
  }

  /** The order the first pass issues for the command at position k, against the starting store. */
  function FirstPassOrders(cmd: DispatchCommand, k: nat, offDurations: seq<int>, vs: Store<Vehicle>, env: Env): seq<Issued>
    requires k < |offDurations|
  {
    if cmd.vehicle !in vs.items then []
    else
      match cmd
      case OffDutyCommand(v) => [ToVehicle(v, TakeRest(offDurations[k]))]
      case CachedRouteCommand(v, from, to) =>
        [ToVehicle(v, Cruise(env.routeCache(from, to).route, env.routeCache(from, to).triptime))]
      case DestinationCommand(_, _) => []
  }

  function FirstPassLog(cmds: seq<DispatchCommand>, offDurations: seq<int>, vs: Store<Vehicle>, env: Env): seq<Issued>
    requires |cmds| <= |offDurations|
    decreases |cmds|
  {
    if cmds == [] then []
    else
      var k := |cmds| - 1;
      FirstPassLog(cmds[..k], offDurations, vs, env) + FirstPassOrders(cmds[k], k, offDurations, vs, env)
  }

  /**
   * The first pass issues, command by command, the order that command calls
   * for alone: a rest for a known off-duty command, a cruise along the cached
   * route for a known cached-route command, nothing otherwise.
   */
  lemma {:induction false} GroupIssuesPerCommand(vs: Store<Vehicle>, cmds: seq<DispatchCommand>, offDurations: seq<int>, env: Env)
    requires |cmds| <= |offDurations|
    ensures Group(vs, cmds, offDurations, env).issued == FirstPassLog(cmds, offDurations, vs, env)
    decreases |cmds|
  {
    if cmds != [] {
      GroupIssuesPerCommand(vs, cmds[..|cmds| - 1], offDurations, env);
    }
  }

  datatype CruiseResult = CruiseResult(vehicles: Store<Vehicle>, issued: seq<Issued>)

  /**
   * The second pass: the i-th routing result goes to the i-th queued vehicle
   * (for the first `n` of them); a result with trip time 0 is skipped, any
   * other makes the vehicle cruise along the route for that trip time.
   */
  function CruiseAll(vs: Store<Vehicle>, pending: seq<VehicleId>, routes: seq<RouteResult>, n: nat, env: Env): (r: CruiseResult)
    requires n <= |pending| && n <= |routes|
    requires forall id | id in pending :: id in vs.items
    ensures r.vehicles.ids == vs.ids && r.vehicles.items.Keys == vs.items.Keys
    decreases n
  {
    if n == 0 then CruiseResult(vs, [])
    else
      var p := CruiseAll(vs, pending, routes, n - 1, env);
      var result := routes[n - 1];
      if result.triptime == 0 then p
      else
        var order := Cruise(result.route, result.triptime);
        CruiseResult(Obey(p.vehicles, pending[n - 1], order, env), p.issued + [ToVehicle(pending[n - 1], order)])
  }

  /** The second pass changes the vehicles' phases and internal states only. */
  lemma {:induction false} CruiseAllPhasesOnly(vs: Store<Vehicle>, pending: seq<VehicleId>, routes: seq<RouteResult>, n: nat, env: Env)
    requires n <= |pending| && n <= |routes|
    requires forall id | id in pending :: id in vs.items
    ensures PhasesOnly(vs, CruiseAll(vs, pending, routes, n, env).vehicles)
    decreases n
  {
    if n > 0 {
      var p := CruiseAll(vs, pending, routes, n - 1, env);
      var r := CruiseAll(vs, pending, routes, n, env);
      CruiseAllPhasesOnly(vs, pending, routes, n - 1, env);
      assert PhasesOnly(p.vehicles, r.vehicles);
      PhasesOnlyTrans(vs, p.vehicles, r.vehicles);
    }
  }

  /** The positions among the first `n` routing results whose trip time is not 0, in increasing order. */
  function Nonzero(routes: seq<RouteResult>, n: nat): (r: seq<nat>)
    requires n <= |routes|
    ensures forall j | 0 <= j < |r| :: r[j] < n
    ensures forall i :: i in r <==> 0 <= i < n && routes[i].triptime != 0
    decreases n
  {
    if n == 0 then []
    else if routes[n - 1].triptime != 0 then Nonzero(routes, n - 1) + [n - 1]
    else Nonzero(routes, n - 1)
  }

  /**
   * The second pass issues one cruise per routing result with a non-zero
   * trip time and none for a zero one, in order, each to the vehicle queued
   * at the result's position and along that result's route.
   */
  lemma {:induction false} CruiseAllIssues(vs: Store<Vehicle>, pending: seq<VehicleId>, routes: seq<RouteResult>, n: nat, env: Env)
    requires n <= |pending| && n <= |routes|
    requires forall id | id in pending :: id in vs.items
    ensures var r := CruiseAll(vs, pending, routes, n, env);
            var idx := Nonzero(routes, n);
            && |r.issued| == |idx|
            && (forall j | 0 <= j < |idx| ::
                  r.issued[j] == ToVehicle(pending[idx[j]], Cruise(routes[idx[j]].route, routes[idx[j]].triptime)))
    decreases n
  {
    if n > 0 {
      CruiseAllIssues(vs, pending, routes, n - 1, env);
      var p := CruiseAll(vs, pending, routes, n - 1, env);
      var pidx := Nonzero(routes, n - 1);
      var r := CruiseAll(vs, pending, routes, n, env);
      var idx := Nonzero(routes, n);
      if routes[n - 1].triptime != 0 {
        assert idx == pidx + [n - 1];
        assert r.issued == p.issued + [ToVehicle(pending[n - 1], Cruise(routes[n - 1].route, routes[n - 1].triptime))];
      }
    }
  }

  /** The vehicles the second pass makes cruise. */
  function Cruised(pending: seq<VehicleId>, routes: seq<RouteResult>, n: nat): set<VehicleId>
    requires n <= |pending| && n <= |routes|
  {
    set i | 0 <= i < n && routes[i].triptime != 0 :: pending[i]
  }

  /** A vehicle that receives no cruise in the second pass is left exactly as it was. */
  lemma {:induction false} CruiseAllFrame(vs: Store<Vehicle>, pending: seq<VehicleId>, routes: seq<RouteResult>, n: nat, env: Env)
    requires n <= |pending| && n <= |routes|
    requires forall id | id in pending :: id in vs.items
    ensures var r := CruiseAll(vs, pending, routes, n, env);
            forall id | id in vs.items && id !in Cruised(pending, routes, n) :: r.vehicles.items[id] == vs.items[id]
    decreases n
  {
    if n > 0 {
      CruiseAllFrame(vs, pending, routes, n - 1, env);
      assert Cruised(pending, routes, n - 1) <= Cruised(pending, routes, n);
      if routes[n - 1].triptime != 0 {
        assert pending[n - 1] in Cruised(pending, routes, n);
      }
    }
  }

  datatype DispatchResult = DispatchResult(vehicles: Store<Vehicle>, issued: seq<Issued>, request: seq<OdPair>)

  function Min(a: nat, b: nat): nat {
    if a < b then a else b
  }

  /**
   * A whole dispatch batch: the first pass, then one batched routing call on
   * the queued pairs, then the second pass over the answers zipped with the
   * queued vehicles (the shorter of the two decides how many are used).
   */
  function Dispatch(vs: Store<Vehicle>, cmds: seq<DispatchCommand>, offDurations: seq<int>, env: Env): (r: DispatchResult)
    requires |cmds| <= |offDurations|
    ensures r.vehicles.ids == vs.ids && r.vehicles.items.Keys == vs.items.Keys
  {
    var g := Group(vs, cmds, offDurations, env);
    var routes := env.route(g.odPairs);
    var c := CruiseAll(g.vehicles, g.pending, routes, Min(|g.pending|, |routes|), env);
    DispatchResult(c.vehicles, g.issued + c.issued, g.odPairs)
  }

  /** A dispatch batch is its first pass followed by its second pass on the routing answers. */
  lemma DispatchByPasses(vs: Store<Vehicle>, cmds: seq<DispatchCommand>, offDurations: seq<int>, env: Env)
    requires |cmds| <= |offDurations|
    ensures var g := Group(vs, cmds, offDurations, env);
            var routes := env.route(g.odPairs);
            var c := CruiseAll(g.vehicles, g.pending, routes, Min(|g.pending|, |routes|), env);
            var r := Dispatch(vs, cmds, offDurations, env);
            r.vehicles == c.vehicles && r.issued == g.issued + c.issued && r.request == g.odPairs
  {
  }

  /**
   * Every rest a dispatch batch orders lasts a duration drawn from the
   * off-duty range, provided the sampler's draws for the off-duty commands
   * of known vehicles (the only ones the sampler is asked for) lie in it.
   */
  lemma DispatchRestsInRange(vs: Store<Vehicle>, cmds: seq<DispatchCommand>, offDurations: seq<int>, env: Env)
    requires |cmds| <= |offDurations|
    requires forall k | 0 <= k < |cmds| && cmds[k].OffDutyCommand? && cmds[k].vehicle in vs.items ::
               OffDurationLow(env.offDuration) <= offDurations[k] < OffDurationHigh(env.offDuration)
    ensures forall e | e in Dispatch(vs, cmds, offDurations, env).issued && e.ToVehicle? && e.order.TakeRest? ::
              OffDurationLow(env.offDuration) <= e.order.duration < OffDurationHigh(env.offDuration)
  {
    var g := Group(vs, cmds, offDurations, env);
    var routes := env.route(g.odPairs);
    CruiseAllIssues(g.vehicles, g.pending, routes, Min(|g.pending|, |routes|), env);
    GroupIssuesPerCommand(vs, cmds, offDurations, env);
    FirstPassRestsInRange(cmds, offDurations, vs, env);
  }

  lemma {:induction false} FirstPassRestsInRange(cmds: seq<DispatchCommand>, offDurations: seq<int>, vs: Store<Vehicle>, env: Env)
    requires |cmds| <= |offDurations|
    requires forall k | 0 <= k < |cmds| && cmds[k].OffDutyCommand? && cmds[k].vehicle in vs.items ::
               OffDurationLow(env.offDuration) <= offDurations[k] < OffDurationHigh(env.offDuration)
    ensures forall e | e in FirstPassLog(cmds, offDurations, vs, env) && e.ToVehicle? && e.order.TakeRest? ::
              OffDurationLow(env.offDuration) <= e.order.duration < OffDurationHigh(env.offDuration)
    decreases |cmds|
  {
    if cmds != [] {
      FirstPassRestsInRange(cmds[..|cmds| - 1], offDurations, vs, env);
    }
  }

  /** The vehicles a log of orders sends an order to. */
  function Ordered(log: seq<Issued>): set<VehicleId> {
    set e | e in log && e.ToVehicle? :: e.vehicle
  }

  lemma OrderedAppend(a: seq<Issued>, b: seq<Issued>)
    ensures Ordered(a + b) == Ordered(a) + Ordered(b)
  {
    assert forall e :: e in a + b <==> e in a || e in b;
  }

  /** The first pass leaves every vehicle it sends no order to exactly as it was. */
  lemma {:induction false} GroupLeavesUnordered(vs: Store<Vehicle>, cmds: seq<DispatchCommand>, offDurations: seq<int>, env: Env)
    requires |cmds| <= |offDurations|
    ensures var g := Group(vs, cmds, offDurations, env);
            forall id | id in vs.items && id !in Ordered(g.issued) :: g.vehicles.items[id] == vs.items[id]
    decreases |cmds|
  {
    if cmds != [] {
      var k := |cmds| - 1;
      var p := Group(vs, cmds[..k], offDurations, env);
      var g := Group(vs, cmds, offDurations, env);
      GroupLeavesUnordered(vs, cmds[..k], offDurations, env);
      if g.issued != p.issued {
        OrderedAppend(p.issued, [ToVehicle(cmds[k].vehicle, g.issued[|g.issued| - 1].order)]);
      }
    }
  }

  /** The second pass leaves every vehicle it sends no cruise to exactly as it was. */
  lemma {:induction false} CruiseAllLeavesUnordered(vs: Store<Vehicle>, pending: seq<VehicleId>, routes: seq<RouteResult>, n: nat, env: Env)
    requires n <= |pending| && n <= |routes|
    requires forall id | id in pending :: id in vs.items
    ensures var c := CruiseAll(vs, pending, routes, n, env);
            forall id | id in vs.items && id !in Ordered(c.issued) :: c.vehicles.items[id] == vs.items[id]
    decreases n
  {
    if n > 0 {
      var p := CruiseAll(vs, pending, routes, n - 1, env);
      CruiseAllLeavesUnordered(vs, pending, routes, n - 1, env);
      if routes[n - 1].triptime != 0 {
        OrderedAppend(p.issued, [ToVehicle(pending[n - 1], Cruise(routes[n - 1].route, routes[n - 1].triptime))]);
      }
    }
  }

  /**
   * A dispatch batch leaves every vehicle it sends no order to exactly as it
   * was: in particular a vehicle whose only command is a destination command
   * answered with trip time 0, or a command with an unknown id.
   */
  lemma DispatchLeavesUnordered(vs: Store<Vehicle>, cmds: seq<DispatchCommand>, offDurations: seq<int>, env: Env)
    requires |cmds| <= |offDurations|
    ensures var r := Dispatch(vs, cmds, offDurations, env);
            forall id | id in vs.items && id !in Ordered(r.issued) :: r.vehicles.items[id] == vs.items[id]
  {
    var g := Group(vs, cmds, offDurations, env);
    var routes := env.route(g.odPairs);
    var n := Min(|g.pending|, |routes|);
    var c := CruiseAll(g.vehicles, g.pending, routes, n, env);
    GroupLeavesUnordered(vs, cmds, offDurations, env);
    CruiseAllLeavesUnordered(g.vehicles, g.pending, routes, n, env);
    OrderedAppend(g.issued, c.issued);
  }

  /** The vehicle ids the commands of a dispatch batch name. */
  function Commanded(cmds: seq<DispatchCommand>): set<VehicleId> {
    set k | 0 <= k < |cmds| :: cmds[k].vehicle
  }

  /**
   * A dispatch batch changes nothing but the phase and internal state of the
   * vehicles its commands name: no vehicle is added, removed or moved, and a
   * vehicle that no command names is left exactly as it was.
   */
  lemma DispatchTouchesOnlyCommanded(vs: Store<Vehicle>, cmds: seq<DispatchCommand>, offDurations: seq<int>, env: Env)
    requires |cmds| <= |offDurations|
    ensures var r := Dispatch(vs, cmds, offDurations, env);
            && r.vehicles.ids == vs.ids && r.vehicles.items.Keys == vs.items.Keys
            && (forall id | id in vs.items ::
                  r.vehicles.items[id].location == vs.items[id].location
                  && r.vehicles.items[id].exitMarket == vs.items[id].exitMarket
                  && r.vehicles.items[id].score == vs.items[id].score)
            && (forall id | id in vs.items && id !in Commanded(cmds) :: r.vehicles.items[id] == vs.items[id])
  {
    var g := Group(vs, cmds, offDurations, env);
    var routes := env.route(g.odPairs);
    var n := Min(|g.pending|, |routes|);
    GroupTouchesOnlyCommanded(vs, cmds, offDurations, env);
    GroupPhasesOnly(vs, cmds, offDurations, env);
    CruiseAllPhasesOnly(g.vehicles, g.pending, routes, n, env);
    PhasesOnlyTrans(vs, g.vehicles, Dispatch(vs, cmds, offDurations, env).vehicles);
    GroupRequest(vs, cmds, offDurations, env);
    CruiseAllFrame(g.vehicles, g.pending, routes, n, env);
    var dg := DestinationGroup(cmds, vs);
    DestinationGroupFromCommands(cmds, vs);
    forall i | 0 <= i < n && routes[i].triptime != 0 ensures g.pending[i] in Commanded(cmds) {
      assert dg[i] in dg;
      var k :| 0 <= k < |cmds| && cmds[k] == dg[i];
    }
    assert Cruised(g.pending, routes, n) <= Commanded(cmds);
  }

  /** Every command of the destination group is a command of the batch. */
  lemma {:induction false} DestinationGroupFromCommands(cmds: seq<DispatchCommand>, vs: Store<Vehicle>)
    ensures forall c | c in DestinationGroup(cmds, vs) :: c in cmds
    decreases |cmds|
  {
    if cmds != [] {
      DestinationGroupFromCommands(cmds[..|cmds| - 1], vs);
      assert forall c | c in cmds[..|cmds| - 1] :: c in cmds;
    }
  }

  lemma {:induction false} GroupTouchesOnlyCommanded(vs: Store<Vehicle>, cmds: seq<DispatchCommand>, offDurations: seq<int>, env: Env)
    requires |cmds| <= |offDurations|
    ensures var g := Group(vs, cmds, offDurations, env);
            forall id | id in vs.items && id !in Commanded(cmds) :: g.vehicles.items[id] == vs.items[id]
    decreases |cmds|
  {
    if cmds != [] {
      var n := |cmds| - 1;
      GroupTouchesOnlyCommanded(vs, cmds[..n], offDurations, env);
      assert Commanded(cmds[..n]) <= Commanded(cmds);
      assert cmds[n].vehicle in Commanded(cmds);
    }
  }
}
