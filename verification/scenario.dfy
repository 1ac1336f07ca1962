/** Scenario::instantiate of scenario.rs: seed parked cars per neighbourhood,
    spawn agents from neighbourhoods (each choosing its mode), spawn agents
    at borders, and queue every resulting trip on the simulation. */
module Instantiation {
  import opened Common
  import opened Oracle
  import opened MapModel
  import opened DesSim
  import opened Sampling
  import opened Goals
  import opened Seeding

  // ---------------------------------------------------------------------
  // The scenario document

  /** Agents leaving a neighbourhood at times drawn from [startTime, stopTime). */
  datatype SpawnOverTime = SpawnOverTime(
    numAgents: nat, startTime: nat, stopTime: nat,
    fromNeighborhood: string, goal: OriginDestination,
    percentBiking: Chance, percentUseTransit: Chance)

  /** Agents entering at a border intersection, with a count per mode. */
  datatype BorderSpawnOverTime = BorderSpawnOverTime(
    numPeds: nat, numCars: nat, numBikes: nat, startTime: nat, stopTime: nat,
    fromBorder: IntersectionId, goal: OriginDestination, percentUseTransit: Chance)

  datatype SeedParkedCarsReq = SeedParkedCarsReq(neighborhood: string, carsPerBuilding: WeightedUsizeChoice)

  datatype Scenario = Scenario(
    scenarioName: string, mapName: string,
    seedParkedCars: seq<SeedParkedCarsReq>,
    spawnOverTime: seq<SpawnOverTime>,
    borderSpawnOverTime: seq<BorderSpawnOverTime>)

  /** What one agent comes to: a trip to queue (with the parked car it
      reserves, if any), nothing (a warning in the source), or a panic. */
  datatype AgentOutcome =
    | Schedule(trip: ScheduledTrip, reserve: Option<CarId>)
    | Skip
    | Abort(fatal: Fatal)

  // ---------------------------------------------------------------------
  // One agent from a neighbourhood

  /** The first car of the list that nobody has reserved yet. */
  function FirstUnreserved(cars: seq<ParkedCar>, reserved: set<CarId>): (r: Option<ParkedCar>)
    ensures r.None? <==> forall c :: c in cars ==> c.id in reserved
    ensures r.Some? ==> exists k :: 0 <= k < |cars| && cars[k] == r.value && r.value.id !in reserved
                                   && forall j :: 0 <= j < k ==> cars[j].id in reserved
  {
    if cars == [] then None
    else if cars[0].id !in reserved then Some(cars[0])
    else
      var rest := FirstUnreserved(cars[1..], reserved);
      assert forall c :: c in cars ==> c == cars[0] || c in cars[1..];
      if rest.Some? then
        var k :| 0 <= k < |cars[1..]| && cars[1..][k] == rest.value && rest.value.id !in reserved
          && forall j :: 0 <= j < k ==> cars[1..][j].id in reserved;
        assert cars[k + 1] == rest.value;
        rest
      else rest
  }

  /** A pedestrian's trip: with probability p, transit when the map finds a
      route between the two sidewalks; otherwise (or failing that) walking. */
  function WalkOrTransit(m: Map, start: SidewalkSpot, goal: SidewalkSpot, p: Chance, rng: Rng): (r: (TripSpec, Rng))
    ensures r.0 == JustWalking(start, goal)
      || (m.transit(start.pos, goal.pos).Some?
          && var leg := m.transit(start.pos, goal.pos).value;
          r.0 == UsingTransit(start, leg.route, leg.stop1, leg.stop2, goal))
    ensures p == 0 || m.transit(start.pos, goal.pos).None? ==> r.0 == JustWalking(start, goal)
    ensures p == Million && m.transit(start.pos, goal.pos).Some? ==> r.0.UsingTransit?
  {
    var (useTransit, rng') := GenBool(rng, p);
    if useTransit && m.transit(start.pos, goal.pos).Some? then
      var leg := m.transit(start.pos, goal.pos).value;
      (UsingTransit(start, leg.route, leg.stop1, leg.stop2, goal), rng')
    else (JustWalking(start, goal), rng')
  }

  /** A bike trip that would end on its own start sidewalk. */
  predicate ZeroDistanceBike(m: Map, start: SidewalkSpot, goal: DrivingGoal): (r: bool)
    ensures goal.Border? ==> !r
    ensures goal.ParkNear? && start == BuildingSpot(m, goal.b) ==> r
  {
    goal.ParkNear? && m.buildingSidewalk(goal.b).lane == start.pos.lane
  }

  predicate IsBike(v: VehicleSpec) {
    v.vehicleType == Bus && v.maxSpeed == Some(BIKE_MAX_SPEED)
    && MIN_BIKE_LENGTH <= v.length < MAX_BIKE_LENGTH
  }

  predicate IsCar(v: VehicleSpec) {
    v.vehicleType == Car && v.maxSpeed == None && MIN_CAR_LENGTH <= v.length < MAX_CAR_LENGTH
  }

  /** The mode of an agent leaving building b at the given time: its
      building's first unreserved parked car, else a bike with probability
      percentBiking, else walking or transit. */
  function ChooseMode(s: SpawnOverTime, m: Map, hoods: Neighborhoods, parked: seq<ParkedCar>,
                      reserved: set<CarId>, time: nat, b: BuildingId, rng: Rng): (r: (AgentOutcome, Rng))
    // every trip leaves the building's front door at the given time
    ensures r.0.Schedule? ==>
      r.0.trip.time == time && !r.0.trip.spec.CarAppearing? && r.0.trip.spec.start == BuildingSpot(m, b)
    // a car is reserved exactly when the trip drives it, and it is an unreserved car of the building
    ensures r.0.Schedule? ==> (r.0.reserve.Some? <==> r.0.trip.spec.UsingParkedCar?)
    ensures r.0.Schedule? && r.0.reserve.Some? ==>
      exists c :: c in parked && c.owner == Some(b) && c.id !in reserved
        && r.0.reserve.value == c.id && r.0.trip.spec.spot == c.spot
    // the parked car has priority: other modes only once every car of the building is reserved
    ensures r.0.Schedule? && !r.0.trip.spec.UsingParkedCar? ==>
      forall c :: c in parked && c.owner == Some(b) ==> c.id in reserved
    ensures r.0.Schedule? && r.0.trip.spec.UsingBike? ==>
      IsBike(r.0.trip.spec.vehicle) && !ZeroDistanceBike(m, r.0.trip.spec.start, r.0.trip.spec.goal)
    ensures s.percentBiking == 0 && r.0.Schedule? ==> !r.0.trip.spec.UsingBike?
    ensures r.0.Schedule? && r.0.trip.spec.UsingTransit? ==>
      m.transit(r.0.trip.spec.start.pos, r.0.trip.spec.walkGoal.pos)
        == Some(TransitLeg(r.0.trip.spec.stop1, r.0.trip.spec.stop2, r.0.trip.spec.route))
    // only a goal neighbourhood that is undefined or has no buildings makes it panic
    ensures r.0.Abort? ==> s.goal.Neighborhood? && (s.goal.name !in hoods || hoods[s.goal.name].buildings == [])
    ensures s.goal.Neighborhood? && s.goal.name !in hoods ==> r.0 == Abort(UndefinedNeighborhood(s.goal.name))
    ensures s.goal.Neighborhood? && s.goal.name in hoods && hoods[s.goal.name].buildings == [] ==>
      r.0 == Abort(NoBuildings(s.goal.name))
  {
    var start := BuildingSpot(m, b);
    var car := FirstUnreserved(OwnedBy(parked, b), reserved);
    if car.Some? then
      var (g, rng') := PickDrivingGoal(s.goal, m, hoods, rng);
      (match g
       case Resolved(goal) => Schedule(ScheduledTrip(time, UsingParkedCar(start, car.value.spot, goal)), Some(car.value.id))
       case Unresolved => Skip
       case Failed(f) => Abort(f), rng')
    else
      var (bike, rng1) := GenBool(rng, s.percentBiking);
      if bike then
        var (g, rng2) := PickBikingGoal(s.goal, m, hoods, rng1);
        match g
        case Resolved(goal) =>
          if ZeroDistanceBike(m, start, goal) then (Skip, rng2)
          else
            var (v, rng3) := RandBike(rng2);
            (Schedule(ScheduledTrip(time, UsingBike(start, v, goal)), None), rng3)
        case Unresolved => (Skip, rng2)
        case Failed(f) => (Abort(f), rng2)
      else
        var (g, rng2) := PickWalkingGoal(s.goal, m, hoods, rng1);
        match g
        case Resolved(goal) =>
          var (spec, rng3) := WalkOrTransit(m, start, goal, s.percentUseTransit, rng2);
          (Schedule(ScheduledTrip(time, spec), None), rng3)
        case Unresolved => (Skip, rng2)
        case Failed(f) => (Abort(f), rng2)
  }

  /** An agent whose building still has an unreserved car drives the first
      such car to the driving goal; it is skipped only when a border goal has
      no incoming driving lane. */
  lemma ChooseModeByCar(s: SpawnOverTime, m: Map, hoods: Neighborhoods, parked: seq<ParkedCar>,
                        reserved: set<CarId>, time: nat, b: BuildingId, rng: Rng)
    requires FirstUnreserved(OwnedBy(parked, b), reserved).Some?
    ensures var car := FirstUnreserved(OwnedBy(parked, b), reserved).value;
      var goal := PickDrivingGoal(s.goal, m, hoods, rng).0;
      var r := ChooseMode(s, m, hoods, parked, reserved, time, b, rng).0;
      (r.Skip? <==> s.goal.Border? && m.incomingLanes(s.goal.i, Driving) == [])
      && (goal.Resolved? ==>
            r == Schedule(ScheduledTrip(time, UsingParkedCar(BuildingSpot(m, b), car.spot, goal.goal)), Some(car.id)))
  {
  }

  /** An agent without a car whose bike roll succeeds bikes to the biking
      goal, unless that goal is unresolved or ends on its own sidewalk. */
  lemma ChooseModeByBike(s: SpawnOverTime, m: Map, hoods: Neighborhoods, parked: seq<ParkedCar>,
                         reserved: set<CarId>, time: nat, b: BuildingId, rng: Rng)
    requires FirstUnreserved(OwnedBy(parked, b), reserved).None?
    requires GenBool(rng, s.percentBiking).0
    ensures var goal := PickBikingGoal(s.goal, m, hoods, GenBool(rng, s.percentBiking).1).0;
      var r := ChooseMode(s, m, hoods, parked, reserved, time, b, rng).0;
      (r.Skip? <==> goal.Unresolved? || (goal.Resolved? && ZeroDistanceBike(m, BuildingSpot(m, b), goal.goal)))
      && (r.Schedule? <==> goal.Resolved? && !ZeroDistanceBike(m, BuildingSpot(m, b), goal.goal))
      && (r.Schedule? ==> r.trip.spec.UsingBike? && r.trip.spec.goal == goal.goal && r.reserve.None?)
  {
  }

  /** An agent without a car whose bike roll fails walks, or rides transit,
      to the walking goal; it is skipped only when a border goal has no
      sidewalk to end on. */
  lemma ChooseModeOnFoot(s: SpawnOverTime, m: Map, hoods: Neighborhoods, parked: seq<ParkedCar>,
                         reserved: set<CarId>, time: nat, b: BuildingId, rng: Rng)
    requires FirstUnreserved(OwnedBy(parked, b), reserved).None?
    requires !GenBool(rng, s.percentBiking).0
    ensures var goal := PickWalkingGoal(s.goal, m, hoods, GenBool(rng, s.percentBiking).1).0;
      var r := ChooseMode(s, m, hoods, parked, reserved, time, b, rng).0;
      (r.Skip? <==> s.goal.Border? && m.borderEnd(s.goal.i).None?)
      && (r.Schedule? <==> goal.Resolved?)
      && (r.Schedule? ==>
            (r.trip.spec.JustWalking? || r.trip.spec.UsingTransit?) && r.trip.spec.walkGoal == goal.goal
            && r.reserve.None?)
  {
  }

  /** One agent of a SpawnOverTime: a time from the window, a uniformly
      drawn building of the source neighbourhood, then its mode. */
  function SpawnAgent(s: SpawnOverTime, m: Map, hoods: Neighborhoods, parked: seq<ParkedCar>,
                      reserved: set<CarId>, rng: Rng): (r: (AgentOutcome, Rng))
    ensures s.stopTime <= s.startTime ==> r.0 == Abort(EmptyTimeWindow(s.startTime, s.stopTime))
    ensures r.0.Abort? && r.0.fatal.EmptyTimeWindow? ==> s.stopTime <= s.startTime
    ensures r.0.Schedule? ==> s.startTime <= r.0.trip.time < s.stopTime
    ensures r.0.Schedule? ==>
      !r.0.trip.spec.CarAppearing?
      && r.0.trip.spec.start.connection.BuildingPOI?
      && s.fromNeighborhood in hoods
      && r.0.trip.spec.start.connection.b in hoods[s.fromNeighborhood].buildings
      && r.0.trip.spec.start == BuildingSpot(m, r.0.trip.spec.start.connection.b)
    ensures r.0.Schedule? ==> (r.0.reserve.Some? <==> r.0.trip.spec.UsingParkedCar?)
    ensures r.0.Schedule? && r.0.reserve.Some? ==>
      exists c :: c in parked && c.owner == Some(r.0.trip.spec.start.connection.b) && c.id !in reserved
        && r.0.reserve.value == c.id && r.0.trip.spec.spot == c.spot
  {
    var (t, rng1) := RandRange(rng, s.startTime, s.stopTime);
    if t.None? then (Abort(EmptyTimeWindow(s.startTime, s.stopTime)), rng1)
    else
      var (from, rng2) := PickBuilding(hoods, s.fromNeighborhood, rng1);
      match from
      case Resolved(b) => ChooseMode(s, m, hoods, parked, reserved, t.value, b, rng2)
      case Unresolved => (Skip, rng2)
      case Failed(f) => (Abort(f), rng2)
  }

  // ---------------------------------------------------------------------
  // One agent from a border

  /** A pedestrian appearing on the border's sidewalk. */
  function BorderPedestrian(s: BorderSpawnOverTime, start: SidewalkSpot, m: Map, hoods: Neighborhoods, rng: Rng)
    : (r: (AgentOutcome, Rng))
    ensures s.stopTime <= s.startTime ==> r.0 == Abort(EmptyTimeWindow(s.startTime, s.stopTime))
    ensures r.0.Schedule? ==> s.startTime <= r.0.trip.time < s.stopTime && r.0.reserve.None?
    ensures r.0.Schedule? ==> (r.0.trip.spec.JustWalking? || r.0.trip.spec.UsingTransit?) && r.0.trip.spec.start == start
  {
    var (t, rng1) := RandRange(rng, s.startTime, s.stopTime);
    if t.None? then (Abort(EmptyTimeWindow(s.startTime, s.stopTime)), rng1)
    else
      var (g, rng2) := PickWalkingGoal(s.goal, m, hoods, rng1);
      match g
      case Resolved(goal) =>
        var (spec, rng3) := WalkOrTransit(m, start, goal, s.percentUseTransit, rng2);
        (Schedule(ScheduledTrip(t.value, spec), None), rng3)
      case Unresolved => (Skip, rng2)
      case Failed(f) => (Abort(f), rng2)
  }

  /** A car appearing at the start of the given lane. */
  function BorderCar(s: BorderSpawnOverTime, lane: LaneId, m: Map, hoods: Neighborhoods, rng: Rng)
    : (r: (AgentOutcome, Rng))
    ensures s.stopTime <= s.startTime ==> r.0 == Abort(EmptyTimeWindow(s.startTime, s.stopTime))
    ensures r.0.Schedule? ==> s.startTime <= r.0.trip.time < s.stopTime && r.0.reserve.None?
    ensures r.0.Schedule? ==>
      r.0.trip.spec.CarAppearing? && r.0.trip.spec.pos == Position(lane, 0) && IsCar(r.0.trip.spec.vehicle)
  {
    var (t, rng1) := RandRange(rng, s.startTime, s.stopTime);
    if t.None? then (Abort(EmptyTimeWindow(s.startTime, s.stopTime)), rng1)
    else
      var (g, rng2) := PickDrivingGoal(s.goal, m, hoods, rng1);
      match g
      case Resolved(goal) =>
        var (v, rng3) := RandCar(rng2);
        (Schedule(ScheduledTrip(t.value, CarAppearing(Position(lane, 0), v, goal)), None), rng3)
      case Unresolved => (Skip, rng2)
      case Failed(f) => (Abort(f), rng2)
  }

  /** A bike appearing on the given lane, its own length in from the start. */
  function BorderBike(s: BorderSpawnOverTime, lane: LaneId, m: Map, hoods: Neighborhoods, rng: Rng)
    : (r: (AgentOutcome, Rng))
    ensures s.stopTime <= s.startTime ==> r.0 == Abort(EmptyTimeWindow(s.startTime, s.stopTime))
    ensures r.0.Schedule? ==> s.startTime <= r.0.trip.time < s.stopTime && r.0.reserve.None?
    ensures r.0.Schedule? ==>
      r.0.trip.spec.CarAppearing? && IsBike(r.0.trip.spec.vehicle)
      && r.0.trip.spec.pos == Position(lane, r.0.trip.spec.vehicle.length)
  {
    var (t, rng1) := RandRange(rng, s.startTime, s.stopTime);
    if t.None? then (Abort(EmptyTimeWindow(s.startTime, s.stopTime)), rng1)
    else
      var (g, rng2) := PickBikingGoal(s.goal, m, hoods, rng1);
      match g
      case Resolved(goal) =>
        var (v, rng3) := RandBike(rng2);
        (Schedule(ScheduledTrip(t.value, CarAppearing(Position(lane, v.length), v, goal)), None), rng3)
      case Unresolved => (Skip, rng2)
      case Failed(f) => (Abort(f), rng2)
  }

  /** Cars start at a border on its first outgoing driving lane, and only
      when that lane is long enough for the longest car. */
  function BorderCarStart(m: Map, i: IntersectionId): (r: Option<LaneId>)
    ensures r.Some? <==> m.outgoingLanes(i, Driving) != [] && m.laneLength(m.outgoingLanes(i, Driving)[0]) >= MAX_CAR_LENGTH
    ensures r.Some? ==> r.value == m.outgoingLanes(i, Driving)[0]
  {
    var lanes := m.outgoingLanes(i, Driving);
    if lanes != [] && m.laneLength(lanes[0]) >= MAX_CAR_LENGTH then Some(lanes[0]) else None
  }

  /** The driving lanes among `lanes` whose road allows bikes, in order. */
  function BikeCapable(m: Map, lanes: seq<LaneId>): (r: seq<LaneId>)
    ensures forall l :: l in r <==> l in lanes && m.supportsBikes(m.laneParent(l))
    ensures |r| <= |lanes|
  {
    if lanes == [] then []
    else
      var prev := BikeCapable(m, DropLast(lanes));
      assert lanes == DropLast(lanes) + [Last(lanes)];
      if m.supportsBikes(m.laneParent(Last(lanes))) then prev + [Last(lanes)] else prev
  }

  /** The lanes a bike may start on at a border: its outgoing biking lanes,
      then its outgoing driving lanes on roads that allow bikes. */
  method BorderBikeLanes(m: Map, i: IntersectionId) returns (lanes: seq<LaneId>)
    ensures lanes == m.outgoingLanes(i, Biking) + BikeCapable(m, m.outgoingLanes(i, Driving))
  {
    lanes := m.outgoingLanes(i, Biking);
    var driving := m.outgoingLanes(i, Driving);
    for k := 0 to |driving|
      invariant lanes == m.outgoingLanes(i, Biking) + BikeCapable(m, driving[..k])
    {
      assert DropLast(driving[..k + 1]) == driving[..k] && Last(driving[..k + 1]) == driving[k];
      if m.supportsBikes(m.laneParent(driving[k])) {
        lanes := lanes + [driving[k]];
      }
    }
    assert driving[..|driving|] == driving;
  }

  /** Every lane a bike may start on is a biking lane of the border or a
      driving lane of it on a road that allows bikes, and biking lanes come first. */
  lemma BorderBikeLanesChar(m: Map, i: IntersectionId, l: LaneId)
    ensures l in m.outgoingLanes(i, Biking) + BikeCapable(m, m.outgoingLanes(i, Driving)) <==>
      l in m.outgoingLanes(i, Biking) || (l in m.outgoingLanes(i, Driving) && m.supportsBikes(m.laneParent(l)))
    ensures m.outgoingLanes(i, Biking) != [] ==>
      (m.outgoingLanes(i, Biking) + BikeCapable(m, m.outgoingLanes(i, Driving)))[0] == m.outgoingLanes(i, Biking)[0]
  {
  }

  // ---------------------------------------------------------------------
  // Reservations

  /** The parking spots of the trips that drive a parked car, in order. */
  function ParkedCarSpots(trips: seq<ScheduledTrip>): (r: seq<ParkingSpot>)
    ensures |r| <= |trips|
    ensures forall s :: s in r <==> exists t :: t in trips && t.spec.UsingParkedCar? && t.spec.spot == s
  {
    if trips == [] then []
    else
      var prev := ParkedCarSpots(DropLast(trips));
      assert trips == DropLast(trips) + [Last(trips)];
      if Last(trips).spec.UsingParkedCar? then prev + [Last(trips).spec.spot] else prev
  }

  /** s is the spot of a parked car that has been reserved. */
  ghost predicate ReservedSpot(parked: seq<ParkedCar>, reserved: set<CarId>, s: ParkingSpot) {
    exists i :: 0 <= i < |parked| && parked[i].spot == s && parked[i].id in reserved
  }

  /** No two trips drive the same parked car, and every driven car is reserved. */
  ghost predicate Reservations(parked: seq<ParkedCar>, reserved: set<CarId>, trips: seq<ScheduledTrip>) {
    NoDup(ParkedCarSpots(trips))
    && forall s :: s in ParkedCarSpots(trips) ==> ReservedSpot(parked, reserved, s)
  }

  /** A trip that drives a parked car drives one its start building owns. */
  ghost predicate DrivesOwnCar(parked: seq<ParkedCar>, t: ScheduledTrip) {
    t.spec.UsingParkedCar? ==>
      t.spec.start.connection.BuildingPOI?
      && exists c :: c in parked && c.spot == t.spec.spot && c.owner == Some(t.spec.start.connection.b)
  }

  /** Reserving an unreserved car for a new trip keeps the reservations sound. */
  lemma ReserveKeepsSound(parked: seq<ParkedCar>, reserved: set<CarId>, trips: seq<ScheduledTrip>,
                          c: ParkedCar, t: ScheduledTrip)
    requires forall i, j :: 0 <= i < j < |parked| ==> parked[i].spot != parked[j].spot
    requires Reservations(parked, reserved, trips)
    requires c in parked && c.id !in reserved && t.spec.UsingParkedCar? && t.spec.spot == c.spot
    ensures Reservations(parked, reserved + {c.id}, trips + [t])
  {
    var k :| 0 <= k < |parked| && parked[k] == c;
    var spots := ParkedCarSpots(trips);
    assert DropLast(trips + [t]) == trips;
    forall s | s in spots
      ensures s != c.spot
    {
      var i :| 0 <= i < |parked| && parked[i].spot == s && parked[i].id in reserved;
      assert i != k;
    }
    NoDupAppend(spots, c.spot);
    forall s | s in spots + [c.spot]
      ensures ReservedSpot(parked, reserved + {c.id}, s)
    {
      if s == c.spot {
        assert parked[k].spot == s;
      } else {
        var i :| 0 <= i < |parked| && parked[i].spot == s && parked[i].id in reserved;
      }
    }
  }

  /** A trip that drives no parked car leaves the reservations as they are. */
  lemma OtherTripKeepsSound(parked: seq<ParkedCar>, reserved: set<CarId>, trips: seq<ScheduledTrip>, t: ScheduledTrip)
    requires Reservations(parked, reserved, trips) && !t.spec.UsingParkedCar?
    ensures Reservations(parked, reserved, trips + [t])
  {
    assert DropLast(trips + [t]) == trips;
  }

  // ---------------------------------------------------------------------
  // The batches

  /** The trips queued since position base keep the reservations and drive
      only cars of their own start building. */
  ghost predicate TripsSound(parked: seq<ParkedCar>, reserved: set<CarId>, trips: seq<ScheduledTrip>, base: nat) {
    base <= |trips|
    && Reservations(parked, reserved, trips[base..])
    && forall k :: base <= k < |trips| ==> DrivesOwnCar(parked, trips[k])
  }

  /** The cars an agent's reservation adds. */
  function Reserve(res: Option<CarId>): set<CarId> {
    if res.Some? then {res.value} else {}
  }

  /** Queueing an agent's trip, reserving the car it drives. */
  lemma ScheduleKeepsSound(parked: seq<ParkedCar>, reserved: set<CarId>, trips: seq<ScheduledTrip>, base: nat,
                           trip: ScheduledTrip, reserve: Option<CarId>)
    requires forall i, j :: 0 <= i < j < |parked| ==> parked[i].spot != parked[j].spot
    requires TripsSound(parked, reserved, trips, base)
    requires reserve.Some? <==> trip.spec.UsingParkedCar?
    requires trip.spec.UsingParkedCar? ==> trip.spec.start.connection.BuildingPOI?
    requires reserve.Some? ==>
      exists c :: c in parked && c.owner == Some(trip.spec.start.connection.b) && c.id !in reserved
        && reserve.value == c.id && trip.spec.spot == c.spot
    ensures TripsSound(parked, reserved + Reserve(reserve), trips + [trip], base)
  {
    assert (trips + [trip])[base..] == trips[base..] + [trip];
    if reserve.Some? {
      var c :| c in parked && c.owner == Some(trip.spec.start.connection.b) && c.id !in reserved
        && reserve.value == c.id && trip.spec.spot == c.spot;
      ReserveKeepsSound(parked, reserved, trips[base..], c, trip);
    } else {
      OtherTripKeepsSound(parked, reserved, trips[base..], trip);
    }
  }

  // ---------------------------------------------------------------------
  // Runs of agents from a neighbourhood

  /** How far a run of neighbourhood agents has got: the trips it queued, in
      order, the cars reserved so far, the panic that ended it (if any), and
      where it left the stream. */
  datatype Run = Run(trips: seq<ScheduledTrip>, reserved: set<CarId>, fatal: Option<Fatal>, rng: Rng)

  /** The trips after an agent's outcome: its trip, if it has one, is queued last. */
  function Queue(trips: seq<ScheduledTrip>, o: AgentOutcome): (r: seq<ScheduledTrip>)
    ensures |trips| <= |r| <= |trips| + 1 && r[..|trips|] == trips
  {
    if o.Schedule? then trips + [o.trip] else trips
  }

  /** A run that has not panicked, after one more agent whose outcome is o
      and who left the stream at rng. */
  function Then(prev: Run, o: AgentOutcome, rng: Rng): Run {
    Run(Queue(prev.trips, o), prev.reserved + (if o.Schedule? then Reserve(o.reserve) else {}),
        if o.Abort? then Some(o.fatal) else None, rng)
  }

  /** The first n agents of s, one after another: each sees the parked cars
      and the cars reserved before it, and draws where the agent before it
      left the stream; the first panic ends the run. */
  function SpawnRun(s: SpawnOverTime, m: Map, hoods: Neighborhoods, parked: seq<ParkedCar>,
                    reserved: set<CarId>, rng: Rng, n: nat): (r: Run)
    ensures |r.trips| <= n && reserved <= r.reserved
  {
    if n == 0 then Run([], reserved, None, rng)
    else
      var prev := SpawnRun(s, m, hoods, parked, reserved, rng, n - 1);
      if prev.fatal.Some? then prev
      else
        var o := SpawnAgent(s, m, hoods, parked, prev.reserved, prev.rng);
        Then(prev, o.0, o.1)
  }

  /** Once a run has panicked, later agents add nothing. */
  lemma {:induction false} SpawnRunStops(s: SpawnOverTime, m: Map, hoods: Neighborhoods, parked: seq<ParkedCar>,
                                         reserved: set<CarId>, rng: Rng, k: nat, n: nat)
    requires k <= n && SpawnRun(s, m, hoods, parked, reserved, rng, k).fatal.Some?
    ensures SpawnRun(s, m, hoods, parked, reserved, rng, n) == SpawnRun(s, m, hoods, parked, reserved, rng, k)
    decreases n
  {
    if k < n {
      SpawnRunStops(s, m, hoods, parked, reserved, rng, k, n - 1);
    }
  }

  /** The panic every agent of s meets, if any: an empty time window first,
      then a source neighbourhood that is undefined or has no buildings, then
      such a goal neighbourhood. */
  function AgentPanic(s: SpawnOverTime, hoods: Neighborhoods): (r: Option<Fatal>)
    ensures r.None? <==> s.startTime < s.stopTime && NeighborhoodPanic(hoods, s.fromNeighborhood).None?
                         && GoalPanic(s.goal, hoods).None?
    ensures s.stopTime <= s.startTime ==> r == Some(EmptyTimeWindow(s.startTime, s.stopTime))
  {
    if s.stopTime <= s.startTime then Some(EmptyTimeWindow(s.startTime, s.stopTime))
    else if NeighborhoodPanic(hoods, s.fromNeighborhood).Some? then NeighborhoodPanic(hoods, s.fromNeighborhood)
    else GoalPanic(s.goal, hoods)
  }

  /** An agent panics exactly when AgentPanic says, with that panic; the
      parked cars, the reservations and the stream play no part in it. */
  lemma SpawnAgentPanics(s: SpawnOverTime, m: Map, hoods: Neighborhoods, parked: seq<ParkedCar>,
                         reserved: set<CarId>, rng: Rng)
    ensures var o := SpawnAgent(s, m, hoods, parked, reserved, rng).0;
      (o.Abort? <==> AgentPanic(s, hoods).Some?) && (o.Abort? ==> Some(o.fatal) == AgentPanic(s, hoods))
  {
  }

  /** A run panics exactly when its agents meet a panic, and then at its
      first agent, having queued and reserved nothing. */
  lemma {:induction false} SpawnRunPanics(s: SpawnOverTime, m: Map, hoods: Neighborhoods, parked: seq<ParkedCar>,
                                          reserved: set<CarId>, rng: Rng, n: nat)
    ensures var r := SpawnRun(s, m, hoods, parked, reserved, rng, n);
      r.fatal == (if n == 0 then None else AgentPanic(s, hoods))
      && (r.fatal.Some? ==> r.trips == [] && r.reserved == reserved)
  {
    if n > 0 {
      SpawnRunPanics(s, m, hoods, parked, reserved, rng, n - 1);
      var prev := SpawnRun(s, m, hoods, parked, reserved, rng, n - 1);
      SpawnAgentPanics(s, m, hoods, parked, prev.reserved, prev.rng);
    }
  }

  /** A trip of s: in its time window, from the front door of a building of
      its source neighbourhood, never a car appearing from nowhere. */
  ghost predicate SpawnTrip(m: Map, hoods: Neighborhoods, s: SpawnOverTime, t: ScheduledTrip) {
    s.startTime <= t.time < s.stopTime && !t.spec.CarAppearing?
    && t.spec.start.connection.BuildingPOI?
    && s.fromNeighborhood in hoods && t.spec.start.connection.b in hoods[s.fromNeighborhood].buildings
    && t.spec.start == BuildingSpot(m, t.spec.start.connection.b)
  }

  /** Every trip of a run is a trip of s. */
  lemma {:induction false} SpawnRunTrips(s: SpawnOverTime, m: Map, hoods: Neighborhoods, parked: seq<ParkedCar>,
                                         reserved: set<CarId>, rng: Rng, n: nat)
    ensures forall t :: t in SpawnRun(s, m, hoods, parked, reserved, rng, n).trips ==> SpawnTrip(m, hoods, s, t)
  {
    if n > 0 {
      SpawnRunTrips(s, m, hoods, parked, reserved, rng, n - 1);
    }
  }

  /** An agent's outcome reserves a car exactly when its trip drives a parked
      car, and then an unreserved car its start building owns, parked at the
      spot the trip drives from. */
  ghost predicate ReservesOwnCar(parked: seq<ParkedCar>, reserved: set<CarId>, o: AgentOutcome) {
    o.Schedule? ==>
      (o.reserve.Some? <==> o.trip.spec.UsingParkedCar?)
      && (o.trip.spec.UsingParkedCar? ==> o.trip.spec.start.connection.BuildingPOI?)
      && (o.reserve.Some? ==>
            exists c :: c in parked && c.owner == Some(o.trip.spec.start.connection.b) && c.id !in reserved
              && o.reserve.value == c.id && o.trip.spec.spot == c.spot)
  }

  lemma SpawnAgentReserves(s: SpawnOverTime, m: Map, hoods: Neighborhoods, parked: seq<ParkedCar>,
                           reserved: set<CarId>, rng: Rng)
    ensures ReservesOwnCar(parked, reserved, SpawnAgent(s, m, hoods, parked, reserved, rng).0)
  {
  }

  /** The trips of r, queued after trips, keep the reservations of r sound. */
  ghost predicate SoundAfter(parked: seq<ParkedCar>, trips: seq<ScheduledTrip>, base: nat, r: Run) {
    TripsSound(parked, r.reserved, trips + r.trips, base)
  }

  /** The run keeps the reservations sound: appended to trips that drive
      distinct reserved cars, its trips drive distinct cars it reserved, each
      one its start building's. */
  lemma {:induction false} SpawnRunSound(s: SpawnOverTime, m: Map, hoods: Neighborhoods, parked: seq<ParkedCar>,
                                         reserved: set<CarId>, rng: Rng, n: nat, trips: seq<ScheduledTrip>, base: nat)
    requires forall i, j :: 0 <= i < j < |parked| ==> parked[i].spot != parked[j].spot
    requires TripsSound(parked, reserved, trips, base)
    ensures SoundAfter(parked, trips, base, SpawnRun(s, m, hoods, parked, reserved, rng, n))
  {
    if n > 0 {
      SpawnRunSound(s, m, hoods, parked, reserved, rng, n - 1, trips, base);
      SpawnRunNextSound(s, m, hoods, parked, reserved, rng, n, trips, base);
    } else {
      assert trips + [] == trips;
    }
  }

  /** Agent n - 1 keeps the run sound. */
  lemma SpawnRunNextSound(s: SpawnOverTime, m: Map, hoods: Neighborhoods, parked: seq<ParkedCar>,
                          reserved: set<CarId>, rng: Rng, n: nat, trips: seq<ScheduledTrip>, base: nat)
    requires n > 0
    requires forall i, j :: 0 <= i < j < |parked| ==> parked[i].spot != parked[j].spot
    requires SoundAfter(parked, trips, base, SpawnRun(s, m, hoods, parked, reserved, rng, n - 1))
    ensures SoundAfter(parked, trips, base, SpawnRun(s, m, hoods, parked, reserved, rng, n))
  {
    var prev := SpawnRun(s, m, hoods, parked, reserved, rng, n - 1);
    if prev.fatal.None? {
      var o := SpawnAgent(s, m, hoods, parked, prev.reserved, prev.rng);
      SpawnAgentReserves(s, m, hoods, parked, prev.reserved, prev.rng);
      SpawnStepSound(parked, prev, o.0, o.1, trips, base);
    }
  }

  /** One more agent that reserves its own car keeps the run sound. */
  lemma SpawnStepSound(parked: seq<ParkedCar>, prev: Run, o: AgentOutcome, rng: Rng,
                       trips: seq<ScheduledTrip>, base: nat)
    requires forall i, j :: 0 <= i < j < |parked| ==> parked[i].spot != parked[j].spot
    requires TripsSound(parked, prev.reserved, trips + prev.trips, base)
    requires ReservesOwnCar(parked, prev.reserved, o)
    ensures var r := Then(prev, o, rng);
      TripsSound(parked, r.reserved, trips + r.trips, base)
  {
    match o
    case Schedule(t, res) =>
      ScheduleKeepsSound(parked, prev.reserved, trips + prev.trips, base, t, res);
      AppendAssoc(trips, prev.trips, [t]);
    case Skip =>
    case Abort(_) =>
  }

  /** One SpawnOverTime: an undefined source neighbourhood panics before any
      agent runs; otherwise its numAgents agents run. */
  function SpawnBatch(s: SpawnOverTime, m: Map, hoods: Neighborhoods, parked: seq<ParkedCar>,
                      reserved: set<CarId>, rng: Rng): (r: Run)
    ensures |r.trips| <= s.numAgents && reserved <= r.reserved
  {
    if s.fromNeighborhood !in hoods then Run([], reserved, Some(UndefinedNeighborhood(s.fromNeighborhood)), rng)
    else SpawnRun(s, m, hoods, parked, reserved, rng, s.numAgents)
  }

  /** The panic a SpawnOverTime meets, if any. */
  function BatchPanic(s: SpawnOverTime, hoods: Neighborhoods): (r: Option<Fatal>)
    ensures s.fromNeighborhood !in hoods ==> r == Some(UndefinedNeighborhood(s.fromNeighborhood))
    ensures r.None? <==> s.fromNeighborhood in hoods && (s.numAgents == 0 || AgentPanic(s, hoods).None?)
  {
    if s.fromNeighborhood !in hoods then Some(UndefinedNeighborhood(s.fromNeighborhood))
    else if s.numAgents == 0 then None
    else AgentPanic(s, hoods)
  }

  /** A batch panics exactly as BatchPanic says, having queued and reserved
      nothing. */
  lemma SpawnBatchPanic(s: SpawnOverTime, m: Map, hoods: Neighborhoods, parked: seq<ParkedCar>,
                        reserved: set<CarId>, rng: Rng)
    ensures var r := SpawnBatch(s, m, hoods, parked, reserved, rng);
      r.fatal == BatchPanic(s, hoods) && (r.fatal.Some? ==> r.trips == [] && r.reserved == reserved)
  {
    if s.fromNeighborhood in hoods {
      SpawnRunPanics(s, m, hoods, parked, reserved, rng, s.numAgents);
    }
  }

  /** A batch keeps the reservations sound. */
  lemma SpawnBatchSound(s: SpawnOverTime, m: Map, hoods: Neighborhoods, parked: seq<ParkedCar>,
                        reserved: set<CarId>, rng: Rng, trips: seq<ScheduledTrip>, base: nat)
    requires forall i, j :: 0 <= i < j < |parked| ==> parked[i].spot != parked[j].spot
    requires TripsSound(parked, reserved, trips, base)
    ensures var r := SpawnBatch(s, m, hoods, parked, reserved, rng);
      TripsSound(parked, r.reserved, trips + r.trips, base)
  {
    if s.fromNeighborhood in hoods {
      SpawnRunSound(s, m, hoods, parked, reserved, rng, s.numAgents, trips, base);
    } else {
      assert trips + [] == trips;
    }
  }

  /** A batch queues only trips of s. */
  lemma SpawnBatchTrips(s: SpawnOverTime, m: Map, hoods: Neighborhoods, parked: seq<ParkedCar>,
                        reserved: set<CarId>, rng: Rng)
    ensures forall t :: t in SpawnBatch(s, m, hoods, parked, reserved, rng).trips ==> SpawnTrip(m, hoods, s, t)
  {
    if s.fromNeighborhood in hoods {
      SpawnRunTrips(s, m, hoods, parked, reserved, rng, s.numAgents);
    }
  }

  /** Queues an agent's trip on the simulation, if it has one. */
  method Enqueue(sim: Sim, o: AgentOutcome, ghost base: seq<ScheduledTrip>, ghost done: seq<ScheduledTrip>)
    modifies sim
    requires sim.trips == base + done
    ensures sim.parked == old(sim.parked) && sim.carCounter == old(sim.carCounter)
    ensures sim.trips == base + Queue(done, o)
  {
    if o.Schedule? {
      assert base + (done + [o.trip]) == base + done + [o.trip];
      sim.ScheduleTrip(o.trip.time, o.trip.spec);
    }
  }

  /** One SpawnOverTime on the simulation: its trips are queued after the
      existing ones, its reservations, panic and stream are exactly
      SpawnBatch's on the simulation's parked cars. */
  method SpawnOverTimeBatch(sim: Sim, m: Map, hoods: Neighborhoods, s: SpawnOverTime, reserved: set<CarId>, rng: Rng)
    returns (reserved': set<CarId>, fatal: Option<Fatal>, rng': Rng)
    modifies sim
    ensures sim.parked == old(sim.parked) && sim.carCounter == old(sim.carCounter)
    ensures var r := SpawnBatch(s, m, hoods, old(sim.parked), reserved, rng);
      sim.trips == old(sim.trips) + r.trips && reserved' == r.reserved && fatal == r.fatal && rng' == r.rng
  {
    reserved', rng' := reserved, rng;
    if s.fromNeighborhood !in hoods {
      return reserved', Some(UndefinedNeighborhood(s.fromNeighborhood)), rng';
    }
    ghost var parked := sim.parked;
    var a := 0;
    fatal := None;
    ghost var r := SpawnRun(s, m, hoods, parked, reserved, rng, 0);
    assert sim.trips == old(sim.trips) + r.trips;
    while a < s.numAgents && fatal.None?
      invariant a <= s.numAgents && r == SpawnRun(s, m, hoods, parked, reserved, rng, a)
      invariant sim.parked == parked && sim.carCounter == old(sim.carCounter)
      invariant sim.trips == old(sim.trips) + r.trips && reserved' == r.reserved && fatal == r.fatal && rng' == r.rng
    {
      var o := SpawnAgent(s, m, hoods, sim.parked, reserved', rng');
      Enqueue(sim, o.0, old(sim.trips), r.trips);
      r := Then(r, o.0, o.1);
      a := a + 1;
      reserved' := reserved' + (if o.0.Schedule? then Reserve(o.0.reserve) else {});
      fatal := if o.0.Abort? then Some(o.0.fatal) else None;
      rng' := o.1;
    }
    if fatal.Some? {
      SpawnRunStops(s, m, hoods, parked, reserved, rng, a, s.numAgents);
    }
  }

  // ---------------------------------------------------------------------
  // Runs of agents from a border

  /** What a border batch queues: trips in its time window, none of which
      drives a parked car; pedestrians leave from the border's sidewalk, cars
      appear at the start of its long-enough first outgoing driving lane, bikes
      on the first lane a bike may start on. */
  ghost predicate BorderTrip(m: Map, s: BorderSpawnOverTime, t: ScheduledTrip) {
    s.startTime <= t.time < s.stopTime && !t.spec.UsingParkedCar? && !t.spec.UsingBike?
    && ((t.spec.JustWalking? || t.spec.UsingTransit?) ==>
          m.borderStart(s.fromBorder).Some?
          && t.spec.start == SidewalkSpot(BorderPOI(s.fromBorder), m.borderStart(s.fromBorder).value))
    && (t.spec.CarAppearing? && t.spec.vehicle.vehicleType == Car ==>
          IsCar(t.spec.vehicle) && BorderCarStart(m, s.fromBorder) == Some(t.spec.pos.lane) && t.spec.pos.dist == 0)
    && (t.spec.CarAppearing? && t.spec.vehicle.vehicleType == Bus ==>
          IsBike(t.spec.vehicle) && t.spec.pos.dist == t.spec.vehicle.length
          && var lanes := m.outgoingLanes(s.fromBorder, Biking) + BikeCapable(m, m.outgoingLanes(s.fromBorder, Driving));
          lanes != [] && t.spec.pos.lane == lanes[0])
  }

  /** The mode of a border agent, with where it starts. */
  datatype BorderAgent = Pedestrian(start: SidewalkSpot) | CarAt(lane: LaneId) | BikeAt(lane: LaneId)

  /** One agent of a mode of a border batch. */
  function BorderAgentOutcome(s: BorderSpawnOverTime, a: BorderAgent, m: Map, hoods: Neighborhoods, rng: Rng)
    : (r: (AgentOutcome, Rng))
    ensures s.stopTime <= s.startTime ==> r.0 == Abort(EmptyTimeWindow(s.startTime, s.stopTime))
    ensures r.0.Schedule? ==> s.startTime <= r.0.trip.time < s.stopTime && r.0.reserve.None?
  {
    match a
    case Pedestrian(start) => BorderPedestrian(s, start, m, hoods, rng)
    case CarAt(lane) => BorderCar(s, lane, m, hoods, rng)
    case BikeAt(lane) => BorderBike(s, lane, m, hoods, rng)
  }

  /** Where pedestrians of a border batch start: the border's sidewalk, if it has one. */
  function PedestrianAgent(m: Map, i: IntersectionId): Option<BorderAgent> {
    if m.borderStart(i).Some? then Some(Pedestrian(SidewalkSpot(BorderPOI(i), m.borderStart(i).value))) else None
  }

  /** Where cars of a border batch start: its first outgoing driving lane, if long enough. */
  function CarAgent(m: Map, i: IntersectionId): Option<BorderAgent> {
    if BorderCarStart(m, i).Some? then Some(CarAt(BorderCarStart(m, i).value)) else None
  }

  /** Where bikes of a border batch start: the first lane a bike may start on, if any. */
  function BikeAgent(m: Map, i: IntersectionId): Option<BorderAgent> {
    var lanes := m.outgoingLanes(i, Biking) + BikeCapable(m, m.outgoingLanes(i, Driving));
    if lanes != [] then Some(BikeAt(lanes[0])) else None
  }

  /** a is the agent of one of the modes the border of s has a place for. */
  predicate StartsAtBorder(m: Map, s: BorderSpawnOverTime, a: BorderAgent) {
    Some(a) == PedestrianAgent(m, s.fromBorder) || Some(a) == CarAgent(m, s.fromBorder)
    || Some(a) == BikeAgent(m, s.fromBorder)
  }

  /** How far a run of border agents has got: the trips queued, in order,
      the panic that ended it (if any), and where it left the stream. */
  datatype Queued = Queued(trips: seq<ScheduledTrip>, fatal: Option<Fatal>, rng: Rng)

  /** The first n agents of one mode of a border batch, one after another;
      the first panic ends the run. */
  function BorderRun(s: BorderSpawnOverTime, a: BorderAgent, m: Map, hoods: Neighborhoods, rng: Rng, n: nat)
    : (r: Queued)
    ensures |r.trips| <= n
  {
    if n == 0 then Queued([], None, rng)
    else
      var prev := BorderRun(s, a, m, hoods, rng, n - 1);
      if prev.fatal.Some? then prev
      else
        Push(prev, BorderAgentOutcome(s, a, m, hoods, prev.rng))
  }

  /** A run after one more agent: its trip queued, its panic recorded. */
  function Push(prev: Queued, o: (AgentOutcome, Rng)): Queued {
    Queued(Queue(prev.trips, o.0), if o.0.Abort? then Some(o.0.fatal) else None, o.1)
  }

  /** Once a border run has panicked, later agents add nothing. */
  lemma {:induction false} BorderRunStops(s: BorderSpawnOverTime, a: BorderAgent, m: Map, hoods: Neighborhoods,
                                          rng: Rng, k: nat, n: nat)
    requires k <= n && BorderRun(s, a, m, hoods, rng, k).fatal.Some?
    ensures BorderRun(s, a, m, hoods, rng, n) == BorderRun(s, a, m, hoods, rng, k)
    decreases n
  {
    if k < n {
      BorderRunStops(s, a, m, hoods, rng, k, n - 1);
    }
  }

  /** The panic every border agent of s meets, whatever its mode: an empty
      time window first, then an undefined or empty goal neighbourhood. */
  function BorderPanic(s: BorderSpawnOverTime, hoods: Neighborhoods): (r: Option<Fatal>)
    ensures r.None? <==> s.startTime < s.stopTime
                         && (s.goal.Border? || (s.goal.name in hoods && hoods[s.goal.name].buildings != []))
  {
    if s.stopTime <= s.startTime then Some(EmptyTimeWindow(s.startTime, s.stopTime))
    else GoalPanic(s.goal, hoods)
  }

  /** A border agent panics exactly when BorderPanic says, with that panic. */
  lemma BorderAgentPanics(s: BorderSpawnOverTime, a: BorderAgent, m: Map, hoods: Neighborhoods, rng: Rng)
    ensures var o := BorderAgentOutcome(s, a, m, hoods, rng).0;
      (o.Abort? <==> BorderPanic(s, hoods).Some?) && (o.Abort? ==> Some(o.fatal) == BorderPanic(s, hoods))
  {
  }

  /** A border run panics exactly when its agents meet a panic, and then at
      its first agent, having queued nothing. */
  lemma {:induction false} BorderRunPanics(s: BorderSpawnOverTime, a: BorderAgent, m: Map, hoods: Neighborhoods,
                                           rng: Rng, n: nat)
    ensures var r := BorderRun(s, a, m, hoods, rng, n);
      r.fatal == (if n == 0 then None else BorderPanic(s, hoods)) && (r.fatal.Some? ==> r.trips == [])
  {
    if n > 0 {
      BorderRunPanics(s, a, m, hoods, rng, n - 1);
      BorderAgentPanics(s, a, m, hoods, BorderRun(s, a, m, hoods, rng, n - 1).rng);
    }
  }

  /** The trip of an agent of a mode the border has a place for is a border trip. */
  lemma BorderAgentTrip(s: BorderSpawnOverTime, a: BorderAgent, m: Map, hoods: Neighborhoods, rng: Rng)
    requires StartsAtBorder(m, s, a)
    ensures var o := BorderAgentOutcome(s, a, m, hoods, rng).0;
      o.Schedule? ==> BorderTrip(m, s, o.trip)
  {
  }

  /** Every trip of a run of such agents is a border trip. */
  lemma {:induction false} BorderRunTrips(s: BorderSpawnOverTime, a: BorderAgent, m: Map, hoods: Neighborhoods,
                                          rng: Rng, n: nat)
    requires StartsAtBorder(m, s, a)
    ensures forall t :: t in BorderRun(s, a, m, hoods, rng, n).trips ==> BorderTrip(m, s, t)
  {
    if n > 0 {
      BorderRunTrips(s, a, m, hoods, rng, n - 1);
      BorderAgentTrip(s, a, m, hoods, BorderRun(s, a, m, hoods, rng, n - 1).rng);
    }
  }

  /** One mode of a border batch, after the modes before it: nothing if an
      earlier mode panicked or the border has no place for this one. */
  function ModeRun(s: BorderSpawnOverTime, a: Option<BorderAgent>, n: nat, m: Map, hoods: Neighborhoods,
                   prev: Queued): (r: Queued)
    ensures |r.trips| <= |prev.trips| + n
  {
    if prev.fatal.Some? || a.None? then prev
    else
      var q := BorderRun(s, a.value, m, hoods, prev.rng, n);
      Queued(prev.trips + q.trips, q.fatal, q.rng)
  }

  /** One BorderSpawnOverTime: its pedestrians, then its cars, then its
      bikes, each mode only where the border has a place for it to start. */
  function BorderBatch(s: BorderSpawnOverTime, m: Map, hoods: Neighborhoods, rng: Rng): (r: Queued)
    ensures |r.trips| <= s.numPeds + s.numCars + s.numBikes
  {
    var i := s.fromBorder;
    var peds := ModeRun(s, PedestrianAgent(m, i), s.numPeds, m, hoods, Queued([], None, rng));
    var cars := ModeRun(s, CarAgent(m, i), s.numCars, m, hoods, peds);
    ModeRun(s, BikeAgent(m, i), s.numBikes, m, hoods, cars)
  }

  /** s has an agent to run: a mode with a place to start and a positive count. */
  predicate BorderHasAgents(m: Map, s: BorderSpawnOverTime) {
    (PedestrianAgent(m, s.fromBorder).Some? && s.numPeds > 0)
    || (CarAgent(m, s.fromBorder).Some? && s.numCars > 0)
    || (BikeAgent(m, s.fromBorder).Some? && s.numBikes > 0)
  }

  /** The panic a BorderSpawnOverTime meets, if any. */
  function BorderBatchPanic(m: Map, s: BorderSpawnOverTime, hoods: Neighborhoods): Option<Fatal> {
    if BorderHasAgents(m, s) then BorderPanic(s, hoods) else None
  }

  /** A border batch panics exactly as BorderBatchPanic says, having queued
      nothing; with no agent to run it queues nothing; every trip it queues is
      a border trip of s. */
  lemma BorderBatchFacts(s: BorderSpawnOverTime, m: Map, hoods: Neighborhoods, rng: Rng)
    ensures var r := BorderBatch(s, m, hoods, rng);
      r.fatal == BorderBatchPanic(m, s, hoods)
      && (r.fatal.Some? ==> r.trips == [])
      && (!BorderHasAgents(m, s) ==> r.trips == [])
      && forall t :: t in r.trips ==> BorderTrip(m, s, t)
  {
    var i := s.fromBorder;
    var peds := ModeRun(s, PedestrianAgent(m, i), s.numPeds, m, hoods, Queued([], None, rng));
    var cars := ModeRun(s, CarAgent(m, i), s.numCars, m, hoods, peds);
    if PedestrianAgent(m, i).Some? {
      BorderRunPanics(s, PedestrianAgent(m, i).value, m, hoods, rng, s.numPeds);
      BorderRunTrips(s, PedestrianAgent(m, i).value, m, hoods, rng, s.numPeds);
    }
    if CarAgent(m, i).Some? {
      BorderRunPanics(s, CarAgent(m, i).value, m, hoods, peds.rng, s.numCars);
      BorderRunTrips(s, CarAgent(m, i).value, m, hoods, peds.rng, s.numCars);
    }
    if BikeAgent(m, i).Some? {
      BorderRunPanics(s, BikeAgent(m, i).value, m, hoods, cars.rng, s.numBikes);
      BorderRunTrips(s, BikeAgent(m, i).value, m, hoods, cars.rng, s.numBikes);
    }
  }

  /** One mode of a border batch on the simulation: its trips are queued
      after the existing ones, its panic and stream exactly BorderRun's. */
  method BorderMode(sim: Sim, m: Map, hoods: Neighborhoods, s: BorderSpawnOverTime, a: BorderAgent, n: nat, rng: Rng)
    returns (fatal: Option<Fatal>, rng': Rng)
    modifies sim
    ensures sim.parked == old(sim.parked) && sim.carCounter == old(sim.carCounter)
    ensures var q := BorderRun(s, a, m, hoods, rng, n);
      sim.trips == old(sim.trips) + q.trips && fatal == q.fatal && rng' == q.rng
  {
    rng', fatal := rng, None;
    var k := 0;
    ghost var q := BorderRun(s, a, m, hoods, rng, 0);
    assert sim.trips == old(sim.trips) + q.trips;
    while k < n && fatal.None?
      invariant k <= n && q == BorderRun(s, a, m, hoods, rng, k)
      invariant sim.parked == old(sim.parked) && sim.carCounter == old(sim.carCounter)
      invariant sim.trips == old(sim.trips) + q.trips && fatal == q.fatal && rng' == q.rng
    {
      var o := BorderAgentOutcome(s, a, m, hoods, rng');
      Enqueue(sim, o.0, old(sim.trips), q.trips);
      q := Push(q, o);
      k := k + 1;
      rng' := o.1;
      if o.0.Abort? {
        fatal := Some(o.0.fatal);
      }
    }
    if fatal.Some? {
      BorderRunStops(s, a, m, hoods, rng, k, n);
    }
  }

  /** One mode of a border batch on the simulation, after the modes before
      it: as ModeRun, nothing once an earlier mode panicked or where the
      border has no place for this one. */
  method RunMode(sim: Sim, m: Map, hoods: Neighborhoods, s: BorderSpawnOverTime, a: Option<BorderAgent>, n: nat,
                 ghost base: seq<ScheduledTrip>, ghost prev: Queued, fatal: Option<Fatal>, rng: Rng)
    returns (fatal': Option<Fatal>, rng': Rng)
    modifies sim
    requires sim.trips == base + prev.trips && fatal == prev.fatal && rng == prev.rng
    ensures sim.parked == old(sim.parked) && sim.carCounter == old(sim.carCounter)
    ensures var q := ModeRun(s, a, n, m, hoods, prev);
      sim.trips == base + q.trips && fatal' == q.fatal && rng' == q.rng
  {
    if fatal.Some? || a.None? {
      return fatal, rng;
    }
    fatal', rng' := BorderMode(sim, m, hoods, s, a.value, n, rng);
    ghost var q := BorderRun(s, a.value, m, hoods, rng, n);
    AppendAssoc(base, prev.trips, q.trips);
  }

  /** One BorderSpawnOverTime on the simulation: pedestrians if the border
      has a sidewalk, cars if it has a long-enough driving lane, bikes if a
      bike may start there; the trips queued, the panic and the stream are
      exactly BorderBatch's. */
  method BorderSpawn(sim: Sim, m: Map, hoods: Neighborhoods, s: BorderSpawnOverTime, rng: Rng)
    returns (fatal: Option<Fatal>, rng': Rng)
    modifies sim
    ensures sim.parked == old(sim.parked) && sim.carCounter == old(sim.carCounter)
    ensures var q := BorderBatch(s, m, hoods, rng);
      sim.trips == old(sim.trips) + q.trips && fatal == q.fatal && rng' == q.rng
  {
    var i := s.fromBorder;
    ghost var start := Queued([], None, rng);
    ghost var peds := ModeRun(s, PedestrianAgent(m, i), s.numPeds, m, hoods, start);
    ghost var cars := ModeRun(s, CarAgent(m, i), s.numCars, m, hoods, peds);
    assert sim.trips == old(sim.trips) + [];
    fatal, rng' := RunMode(sim, m, hoods, s, PedestrianAgent(m, i), s.numPeds, old(sim.trips), start, None, rng);
    fatal, rng' := RunMode(sim, m, hoods, s, CarAgent(m, i), s.numCars, old(sim.trips), peds, fatal, rng');
    fatal, rng' := RunMode(sim, m, hoods, s, BikeAgent(m, i), s.numBikes, old(sim.trips), cars, fatal, rng');
  }

  // ---------------------------------------------------------------------
  // instantiate

  /** The neighbourhood index as loaded from the map: road lists without
      repeats, and roads whose lanes belong to them. */
  ghost predicate WellFormedHoods(m: Map, hoods: Neighborhoods) {
    forall name :: name in hoods ==>
      NoDup(hoods[name].roads) && forall r :: r in hoods[name].roads ==> m.LanesBelongTo(r)
  }

  /** One seeding request run as seed_parked_cars runs it for the request's
      neighbourhood, from the parked cars `before`, with the car counter
      advanced by the cars seeded since `first`. */
  ghost predicate StageSeeded(m: Map, hoods: Neighborhoods, req: SeedParkedCarsReq, counter: nat,
                              first: seq<ParkedCar>, before: seq<ParkedCar>, after: seq<ParkedCar>,
                              rng: Rng, report: SeedReport, rng': Rng) {
    req.neighborhood in hoods && |first| <= |before|
    && SeedsParkedCars(m, req.carsPerBuilding, hoods[req.neighborhood].buildings, hoods[req.neighborhood].roads,
                       rng, counter + (|before| - |first|), before, after, report, rng')
  }

  /** stages[0], stages[1], ... are the parked cars before the first seeding
      request and after each request run, and streams[0], streams[1], ...
      the stream at those points, starting from `rng`: request k turns
      stages[k] and streams[k] into stages[k + 1] and streams[k + 1] with
      the closing note reports[k]. */
  ghost predicate SeededInOrder(m: Map, hoods: Neighborhoods, reqs: seq<SeedParkedCarsReq>, counter: nat, rng: Rng,
                                stages: seq<seq<ParkedCar>>, streams: seq<Rng>, reports: seq<SeedReport>) {
    1 <= |stages| <= |reqs| + 1 && |streams| == |stages| && |reports| == |stages| - 1
    && streams[0] == rng
    && forall k :: 0 <= k < |stages| - 1 ==>
      StageSeeded(m, hoods, reqs[k], counter, stages[0], stages[k], stages[k + 1], streams[k], reports[k], streams[k + 1])
  }

  lemma SeededInOrderExtend(m: Map, hoods: Neighborhoods, reqs: seq<SeedParkedCarsReq>, counter: nat, rng: Rng,
                            stages: seq<seq<ParkedCar>>, streams: seq<Rng>, reports: seq<SeedReport>,
                            req: SeedParkedCarsReq, carsFrom: nat, next: seq<ParkedCar>, report: SeedReport, rng': Rng)
    requires SeededInOrder(m, hoods, reqs, counter, rng, stages, streams, reports) && |stages| <= |reqs|
    requires req == reqs[|stages| - 1] && req.neighborhood in hoods
    requires |stages[0]| <= |Last(stages)| && carsFrom == counter + (|Last(stages)| - |stages[0]|)
    requires SeedsParkedCars(m, req.carsPerBuilding, hoods[req.neighborhood].buildings, hoods[req.neighborhood].roads,
                             Last(streams), carsFrom, Last(stages), next, report, rng')
    ensures SeededInOrder(m, hoods, reqs, counter, rng, stages + [next], streams + [rng'], reports + [report])
    ensures |stages[0]| <= |next| && carsFrom + report.newCars == counter + (|next| - |stages[0]|)
    ensures (stages + [next])[0] == stages[0] && Last(stages + [next]) == next && Last(streams + [rng']) == rng'
  {
    assert StageSeeded(m, hoods, req, counter, stages[0], Last(stages), next, Last(streams), report, rng');
    var s', r', n' := stages + [next], streams + [rng'], reports + [report];
    forall k | 0 <= k < |s'| - 1
      ensures StageSeeded(m, hoods, reqs[k], counter, s'[0], s'[k], s'[k + 1], r'[k], n'[k], r'[k + 1])
    {
      if k < |stages| - 1 {
        assert s'[k] == stages[k] && s'[k + 1] == stages[k + 1] && r'[k] == streams[k] && r'[k + 1] == streams[k + 1];
      } else {
        assert s'[k] == Last(stages) && s'[k + 1] == next && r'[k] == Last(streams) && r'[k + 1] == rng';
      }
    }
  }

  /** A request's cars follow the cars before it, numbered on from where the
      counter stood. */
  lemma StageSeededCars(m: Map, hoods: Neighborhoods, req: SeedParkedCarsReq, counter: nat,
                        first: seq<ParkedCar>, before: seq<ParkedCar>, after: seq<ParkedCar>,
                        rng: Rng, report: SeedReport, rng': Rng)
    requires StageSeeded(m, hoods, req, counter, first, before, after, rng, report, rng')
    ensures |before| <= |after| && after[..|before|] == before
    ensures forall j :: |before| <= j < |after| ==> after[j].id == counter + (j - |first|)
  {
    var info := hoods[req.neighborhood];
    SeededInTurnCars(m, info.roads, info.buildings, counter + (|before| - |first|),
                     rng.(pos := rng.pos + |info.roads|), report.requested, report.placed, before, after);
  }

  /** Every car the requests seed is numbered on from the counter, in the
      order seeded: the ids run on across the requests. */
  lemma {:induction false} SeededInOrderIds(m: Map, hoods: Neighborhoods, reqs: seq<SeedParkedCarsReq>, counter: nat,
                                            rng: Rng, stages: seq<seq<ParkedCar>>, streams: seq<Rng>,
                                            reports: seq<SeedReport>, k: nat)
    requires SeededInOrder(m, hoods, reqs, counter, rng, stages, streams, reports) && k < |stages|
    ensures |stages[0]| <= |stages[k]| && stages[k][..|stages[0]|] == stages[0]
    ensures forall j :: |stages[0]| <= j < |stages[k]| ==> stages[k][j].id == counter + (j - |stages[0]|)
  {
    if k > 0 {
      SeededInOrderIds(m, hoods, reqs, counter, rng, stages, streams, reports, k - 1);
      StageSeededCars(m, hoods, reqs[k - 1], counter, stages[0], stages[k - 1], stages[k], streams[k - 1],
                      reports[k - 1], streams[k]);
      assert stages[k][..|stages[0]|] == stages[k][..|stages[k - 1]|][..|stages[0]|];
      forall j | |stages[0]| <= j < |stages[k]|
        ensures stages[k][j].id == counter + (j - |stages[0]|)
      {
        if j < |stages[k - 1]| {
          assert stages[k][j] == stages[k][..|stages[k - 1]|][j];
        }
      }
    }
  }

  /** One seeding request whose neighbourhood is defined: seed_parked_cars
      run for that neighbourhood, recorded as the next stage. */
  method SeedRequest(sim: Sim, m: Map, hoods: Neighborhoods, reqs: seq<SeedParkedCarsReq>,
                     ghost counter: nat, ghost first: Rng, ghost stages: seq<seq<ParkedCar>>, ghost streams: seq<Rng>,
                     ghost reports: seq<SeedReport>, req: SeedParkedCarsReq, rng: Rng)
    returns (rng': Rng, ghost stages': seq<seq<ParkedCar>>, ghost streams': seq<Rng>, ghost reports': seq<SeedReport>)
    requires sim.Valid() && WellFormedHoods(m, hoods)
    requires SeededInOrder(m, hoods, reqs, counter, first, stages, streams, reports) && |stages| <= |reqs|
    requires req == reqs[|stages| - 1] && req.neighborhood in hoods
    requires Last(stages) == sim.parked && Last(streams) == rng
    requires |stages[0]| <= |sim.parked| && sim.carCounter == counter + (|sim.parked| - |stages[0]|)
    modifies sim
    ensures sim.Valid() && sim.trips == old(sim.trips)
    ensures SeededInOrder(m, hoods, reqs, counter, first, stages', streams', reports')
    ensures stages' == stages + [sim.parked] && streams' == streams + [rng'] && |reports'| == |reports| + 1
    ensures |stages[0]| <= |sim.parked| && sim.carCounter == counter + (|sim.parked| - |stages[0]|)
  {
    ghost var carsFrom := sim.carCounter;
    var info := hoods[req.neighborhood];
    var report;
    report, rng' := SeedParkedCars(sim, m, req.carsPerBuilding, info.buildings, info.roads, rng);
    SeededInOrderExtend(m, hoods, reqs, counter, first, stages, streams, reports, req, carsFrom, sim.parked, report, rng');
    stages', streams', reports' := stages + [sim.parked], streams + [rng'], reports + [report];
  }

  /** The seeding requests, in order; an undefined neighbourhood is fatal
      and stops the run there.  `stages`, `streams` and `reports` record
      the requests run, and the stream returned is the last of `streams`. */
  method SeedAll(sc: Scenario, sim: Sim, m: Map, hoods: Neighborhoods, rng: Rng)
    returns (fatal: Option<Fatal>, rng': Rng,
             ghost stages: seq<seq<ParkedCar>>, ghost streams: seq<Rng>, ghost reports: seq<SeedReport>)
    requires sim.Valid() && WellFormedHoods(m, hoods)
    modifies sim
    ensures sim.Valid() && sim.trips == old(sim.trips)
    ensures sim.carCounter == old(sim.carCounter) + (|sim.parked| - |old(sim.parked)|)
    ensures SeededInOrder(m, hoods, sc.seedParkedCars, old(sim.carCounter), rng, stages, streams, reports)
    ensures stages[0] == old(sim.parked) && Last(stages) == sim.parked && Last(streams) == rng'
    ensures fatal.None? <==> |stages| == |sc.seedParkedCars| + 1
    ensures fatal.None? ==> forall k :: 0 <= k < |sc.seedParkedCars| ==> sc.seedParkedCars[k].neighborhood in hoods
    ensures fatal.Some? ==>
      var req := sc.seedParkedCars[|stages| - 1];
      req.neighborhood !in hoods && fatal == Some(UndefinedNeighborhood(req.neighborhood))
  {
    rng' := rng;
    stages, streams, reports := [sim.parked], [rng], [];
    for k := 0 to |sc.seedParkedCars|
      invariant sim.Valid() && sim.trips == old(sim.trips)
      invariant |old(sim.parked)| <= |sim.parked|
      invariant sim.carCounter == old(sim.carCounter) + (|sim.parked| - |old(sim.parked)|)
      invariant |stages| == k + 1
      invariant SeededInOrder(m, hoods, sc.seedParkedCars, old(sim.carCounter), rng, stages, streams, reports)
      invariant stages[0] == old(sim.parked) && Last(stages) == sim.parked && Last(streams) == rng'
      invariant forall j :: 0 <= j < k ==> sc.seedParkedCars[j].neighborhood in hoods
    {
      var req := sc.seedParkedCars[k];
      if req.neighborhood !in hoods {
        return Some(UndefinedNeighborhood(req.neighborhood)), rng', stages, streams, reports;
      }
      rng', stages, streams, reports :=
        SeedRequest(sim, m, hoods, sc.seedParkedCars, old(sim.carCounter), rng, stages, streams, reports, req, rng');
    }
    fatal := None;
  }


  /** How many agents the SpawnOverTime batches ask for. */
  function SpawnAgents(batches: seq<SpawnOverTime>): nat
    decreases |batches|
  {
    if batches == [] then 0 else SpawnAgents(DropLast(batches)) + Last(batches).numAgents
  }

  /** How many agents, of all modes, the border batches ask for. */
  function BorderAgents(batches: seq<BorderSpawnOverTime>): nat
    decreases |batches|
  {
    if batches == [] then 0
    else BorderAgents(DropLast(batches)) + Last(batches).numPeds + Last(batches).numCars + Last(batches).numBikes
  }

  /** The SpawnOverTime batches in order, sharing one reservation set and
      one stream; the first panic ends the run. */
  function SpawnAllRun(batches: seq<SpawnOverTime>, m: Map, hoods: Neighborhoods, parked: seq<ParkedCar>,
                       reserved: set<CarId>, rng: Rng): (r: Run)
    ensures reserved <= r.reserved
    ensures |r.trips| <= SpawnAgents(batches)
    decreases |batches|
  {
    if batches == [] then Run([], reserved, None, rng)
    else
      var prev := SpawnAllRun(DropLast(batches), m, hoods, parked, reserved, rng);
      if prev.fatal.Some? then prev
      else
        var b := SpawnBatch(Last(batches), m, hoods, parked, prev.reserved, prev.rng);
        Run(prev.trips + b.trips, b.reserved, b.fatal, b.rng)
  }

  /** The run over the first k + 1 batches extends the run over the first k by batch k. */
  lemma SpawnAllRunNext(batches: seq<SpawnOverTime>, m: Map, hoods: Neighborhoods, parked: seq<ParkedCar>,
                        reserved: set<CarId>, rng: Rng, k: nat)
    requires k < |batches| && SpawnAllRun(batches[..k], m, hoods, parked, reserved, rng).fatal.None?
    ensures var prev := SpawnAllRun(batches[..k], m, hoods, parked, reserved, rng);
      var b := SpawnBatch(batches[k], m, hoods, parked, prev.reserved, prev.rng);
      SpawnAllRun(batches[..k + 1], m, hoods, parked, reserved, rng) == Run(prev.trips + b.trips, b.reserved, b.fatal, b.rng)
  {
    assert DropLast(batches[..k + 1]) == batches[..k] && Last(batches[..k + 1]) == batches[k];
  }

  /** Once a panic has ended the run, later batches add nothing. */
  lemma {:induction false} SpawnAllRunStops(batches: seq<SpawnOverTime>, m: Map, hoods: Neighborhoods,
                                            parked: seq<ParkedCar>, reserved: set<CarId>, rng: Rng, k: nat)
    requires k <= |batches| && SpawnAllRun(batches[..k], m, hoods, parked, reserved, rng).fatal.Some?
    ensures SpawnAllRun(batches, m, hoods, parked, reserved, rng) == SpawnAllRun(batches[..k], m, hoods, parked, reserved, rng)
    decreases |batches|
  {
    if k < |batches| {
      assert DropLast(batches)[..k] == batches[..k];
      SpawnAllRunStops(DropLast(batches), m, hoods, parked, reserved, rng, k);
    } else {
      assert batches[..k] == batches;
    }
  }

  /** The first panic of a sequence of possible panics. */
  function FirstPanic(ps: seq<Option<Fatal>>): Option<Fatal>
    decreases |ps|
  {
    if ps == [] then None
    else if FirstPanic(DropLast(ps)).Some? then FirstPanic(DropLast(ps))
    else Last(ps)
  }

  /** FirstPanic is none exactly when no element is a panic, and otherwise
      the element at the first index that is one. */
  lemma {:induction false} FirstPanicIsFirst(ps: seq<Option<Fatal>>)
    ensures FirstPanic(ps).None? <==> forall k :: 0 <= k < |ps| ==> ps[k].None?
    ensures FirstPanic(ps).Some? ==>
      exists k :: 0 <= k < |ps| && ps[k] == FirstPanic(ps) && forall j :: 0 <= j < k ==> ps[j].None?
    decreases |ps|
  {
    if ps != [] {
      var init := DropLast(ps);
      FirstPanicIsFirst(init);
      assert forall k :: 0 <= k < |init| ==> ps[k] == init[k];
      if FirstPanic(init).Some? {
        var k :| 0 <= k < |init| && init[k] == FirstPanic(init) && forall j :: 0 <= j < k ==> init[j].None?;
        assert ps[k] == FirstPanic(ps);
      } else if Last(ps).Some? {
        assert ps[|ps| - 1] == FirstPanic(ps);
      }
    }
  }

  /** The panic each SpawnOverTime batch meets, in order. */
  function SpawnPanics(batches: seq<SpawnOverTime>, hoods: Neighborhoods): (ps: seq<Option<Fatal>>)
    ensures |ps| == |batches| && forall k :: 0 <= k < |batches| ==> ps[k] == BatchPanic(batches[k], hoods)
    decreases |batches|
  {
    if batches == [] then [] else SpawnPanics(DropLast(batches), hoods) + [BatchPanic(Last(batches), hoods)]
  }

  /** The batches end with the first panic one of them meets. */
  lemma {:induction false} SpawnAllPanic(batches: seq<SpawnOverTime>, m: Map, hoods: Neighborhoods,
                                         parked: seq<ParkedCar>, reserved: set<CarId>, rng: Rng)
    ensures SpawnAllRun(batches, m, hoods, parked, reserved, rng).fatal == FirstPanic(SpawnPanics(batches, hoods))
    decreases |batches|
  {
    if batches != [] {
      var prev := SpawnAllRun(DropLast(batches), m, hoods, parked, reserved, rng);
      SpawnAllPanic(DropLast(batches), m, hoods, parked, reserved, rng);
      assert DropLast(SpawnPanics(batches, hoods)) == SpawnPanics(DropLast(batches), hoods);
      if prev.fatal.None? {
        SpawnBatchPanic(Last(batches), m, hoods, parked, prev.reserved, prev.rng);
      }
    }
  }

  /** The batches keep the reservations sound. */
  lemma {:induction false} SpawnAllSound(batches: seq<SpawnOverTime>, m: Map, hoods: Neighborhoods,
                                         parked: seq<ParkedCar>, reserved: set<CarId>, rng: Rng,
                                         trips: seq<ScheduledTrip>, base: nat)
    requires forall i, j :: 0 <= i < j < |parked| ==> parked[i].spot != parked[j].spot
    requires TripsSound(parked, reserved, trips, base)
    ensures var r := SpawnAllRun(batches, m, hoods, parked, reserved, rng);
      TripsSound(parked, r.reserved, trips + r.trips, base)
    decreases |batches|
  {
    if batches != [] {
      var prev := SpawnAllRun(DropLast(batches), m, hoods, parked, reserved, rng);
      SpawnAllSound(DropLast(batches), m, hoods, parked, reserved, rng, trips, base);
      if prev.fatal.None? {
        var b := SpawnBatch(Last(batches), m, hoods, parked, prev.reserved, prev.rng);
        SpawnBatchSound(Last(batches), m, hoods, parked, prev.reserved, prev.rng, trips + prev.trips, base);
        AppendAssoc(trips, prev.trips, b.trips);
      }
    } else {
      assert trips + [] == trips;
    }
  }

  /** t is a trip of one of the SpawnOverTime batches. */
  ghost predicate SpawnedBy(m: Map, hoods: Neighborhoods, batches: seq<SpawnOverTime>, t: ScheduledTrip) {
    exists k :: 0 <= k < |batches| && SpawnTrip(m, hoods, batches[k], t)
  }

  /** The batches queue only trips of their own. */
  lemma {:induction false} SpawnAllTrips(batches: seq<SpawnOverTime>, m: Map, hoods: Neighborhoods,
                                         parked: seq<ParkedCar>, reserved: set<CarId>, rng: Rng)
    ensures forall t :: t in SpawnAllRun(batches, m, hoods, parked, reserved, rng).trips ==>
      SpawnedBy(m, hoods, batches, t)
    decreases |batches|
  {
    if batches != [] {
      var init := DropLast(batches);
      var prev := SpawnAllRun(init, m, hoods, parked, reserved, rng);
      SpawnAllTrips(init, m, hoods, parked, reserved, rng);
      if prev.fatal.None? {
        var b := SpawnBatch(Last(batches), m, hoods, parked, prev.reserved, prev.rng);
        SpawnBatchTrips(Last(batches), m, hoods, parked, prev.reserved, prev.rng);
        forall t | t in prev.trips + b.trips
          ensures SpawnedBy(m, hoods, batches, t)
        {
          if t in prev.trips {
            var k :| 0 <= k < |init| && SpawnTrip(m, hoods, init[k], t);
            assert batches[k] == init[k];
          } else {
            assert batches[|batches| - 1] == Last(batches);
          }
        }
      }
    }
  }

  /** The BorderSpawnOverTime batches in order, on one stream; the first
      panic ends the run. */
  function BorderAllRun(batches: seq<BorderSpawnOverTime>, m: Map, hoods: Neighborhoods, rng: Rng): (r: Queued)
    ensures |r.trips| <= BorderAgents(batches)
    decreases |batches|
  {
    if batches == [] then Queued([], None, rng)
    else
      var prev := BorderAllRun(DropLast(batches), m, hoods, rng);
      if prev.fatal.Some? then prev
      else
        var b := BorderBatch(Last(batches), m, hoods, prev.rng);
        Queued(prev.trips + b.trips, b.fatal, b.rng)
  }

  /** The run over the first k + 1 border batches extends the run over the first k by batch k. */
  lemma BorderAllRunNext(batches: seq<BorderSpawnOverTime>, m: Map, hoods: Neighborhoods, rng: Rng, k: nat)
    requires k < |batches| && BorderAllRun(batches[..k], m, hoods, rng).fatal.None?
    ensures var prev := BorderAllRun(batches[..k], m, hoods, rng);
      var b := BorderBatch(batches[k], m, hoods, prev.rng);
      BorderAllRun(batches[..k + 1], m, hoods, rng) == Queued(prev.trips + b.trips, b.fatal, b.rng)
  {
    assert DropLast(batches[..k + 1]) == batches[..k] && Last(batches[..k + 1]) == batches[k];
  }

  /** Once a panic has ended the run, later border batches add nothing. */
  lemma {:induction false} BorderAllRunStops(batches: seq<BorderSpawnOverTime>, m: Map, hoods: Neighborhoods,
                                             rng: Rng, k: nat)
    requires k <= |batches| && BorderAllRun(batches[..k], m, hoods, rng).fatal.Some?
    ensures BorderAllRun(batches, m, hoods, rng) == BorderAllRun(batches[..k], m, hoods, rng)
    decreases |batches|
  {
    if k < |batches| {
      assert DropLast(batches)[..k] == batches[..k];
      BorderAllRunStops(DropLast(batches), m, hoods, rng, k);
    } else {
      assert batches[..k] == batches;
    }
  }

  /** The panic each BorderSpawnOverTime batch meets, in order. */
  function BorderPanics(m: Map, batches: seq<BorderSpawnOverTime>, hoods: Neighborhoods): (ps: seq<Option<Fatal>>)
    ensures |ps| == |batches| && forall k :: 0 <= k < |batches| ==> ps[k] == BorderBatchPanic(m, batches[k], hoods)
    decreases |batches|
  {
    if batches == [] then [] else BorderPanics(m, DropLast(batches), hoods) + [BorderBatchPanic(m, Last(batches), hoods)]
  }

  /** The border batches end with the first panic one of them meets. */
  lemma {:induction false} BorderAllPanic(batches: seq<BorderSpawnOverTime>, m: Map, hoods: Neighborhoods, rng: Rng)
    ensures BorderAllRun(batches, m, hoods, rng).fatal == FirstPanic(BorderPanics(m, batches, hoods))
    decreases |batches|
  {
    if batches != [] {
      var prev := BorderAllRun(DropLast(batches), m, hoods, rng);
      BorderAllPanic(DropLast(batches), m, hoods, rng);
      assert DropLast(BorderPanics(m, batches, hoods)) == BorderPanics(m, DropLast(batches), hoods);
      if prev.fatal.None? {
        BorderBatchFacts(Last(batches), m, hoods, prev.rng);
      }
    }
  }

  /** t is a border trip of one of the BorderSpawnOverTime batches. */
  ghost predicate BorderedBy(m: Map, batches: seq<BorderSpawnOverTime>, t: ScheduledTrip) {
    exists k :: 0 <= k < |batches| && BorderTrip(m, batches[k], t)
  }

  /** Every trip the border batches queue is a border trip of one of them. */
  lemma {:induction false} BorderAllTrips(batches: seq<BorderSpawnOverTime>, m: Map, hoods: Neighborhoods, rng: Rng)
    ensures forall t :: t in BorderAllRun(batches, m, hoods, rng).trips ==> BorderedBy(m, batches, t)
    decreases |batches|
  {
    if batches != [] {
      var init := DropLast(batches);
      var prev := BorderAllRun(init, m, hoods, rng);
      BorderAllTrips(init, m, hoods, rng);
      if prev.fatal.None? {
        var b := BorderBatch(Last(batches), m, hoods, prev.rng);
        BorderBatchFacts(Last(batches), m, hoods, prev.rng);
        forall t | t in prev.trips + b.trips
          ensures BorderedBy(m, batches, t)
        {
          if t in prev.trips {
            var k :| 0 <= k < |init| && BorderTrip(m, init[k], t);
            assert batches[k] == init[k];
          } else {
            assert batches[|batches| - 1] == Last(batches);
          }
        }
      }
    }
  }

  /** No trip of the border batches drives a parked car. */
  lemma BorderBatchesNoCar(batches: seq<BorderSpawnOverTime>, m: Map, hoods: Neighborhoods, rng: Rng)
    ensures forall t :: t in BorderAllRun(batches, m, hoods, rng).trips ==> !t.spec.UsingParkedCar?
  {
    BorderAllTrips(batches, m, hoods, rng);
  }

  /** Appending trips that drive no parked car keeps the reservations sound. */
  lemma {:induction false} NoCarTripsKeepSound(parked: seq<ParkedCar>, reserved: set<CarId>,
                                               trips: seq<ScheduledTrip>, more: seq<ScheduledTrip>, base: nat)
    requires TripsSound(parked, reserved, trips, base)
    requires forall t :: t in more ==> !t.spec.UsingParkedCar?
    ensures TripsSound(parked, reserved, trips + more, base)
    decreases |more|
  {
    if more != [] {
      NoCarTripsKeepSound(parked, reserved, trips, DropLast(more), base);
      var prev := trips + DropLast(more);
      assert trips + more == prev + [Last(more)];
      assert (prev + [Last(more)])[base..] == prev[base..] + [Last(more)];
      OtherTripKeepsSound(parked, reserved, prev[base..], Last(more));
    } else {
      assert trips + more == trips;
    }
  }

  /** The SpawnOverTime batches on the simulation, sharing one reservation
      set: the trips queued, the reservations, the panic and the stream are
      exactly SpawnAllRun's on the simulation's parked cars. */
  method SpawnAll(sc: Scenario, sim: Sim, m: Map, hoods: Neighborhoods, reserved: set<CarId>, rng: Rng)
    returns (reserved': set<CarId>, fatal: Option<Fatal>, rng': Rng)
    modifies sim
    ensures sim.parked == old(sim.parked) && sim.carCounter == old(sim.carCounter)
    ensures var r := SpawnAllRun(sc.spawnOverTime, m, hoods, old(sim.parked), reserved, rng);
      sim.trips == old(sim.trips) + r.trips && reserved' == r.reserved && fatal == r.fatal && rng' == r.rng
  {
    reserved', fatal, rng' := reserved, None, rng;
    ghost var parked := sim.parked;
    var bs := sc.spawnOverTime;
    var k := 0;
    assert bs[..0] == [] && sim.trips == old(sim.trips) + [];
    ghost var r := SpawnAllRun(bs[..0], m, hoods, parked, reserved, rng);
    while k < |bs| && fatal.None?
      invariant k <= |bs| && r == SpawnAllRun(bs[..k], m, hoods, parked, reserved, rng)
      invariant sim.parked == parked && sim.carCounter == old(sim.carCounter)
      invariant sim.trips == old(sim.trips) + r.trips && reserved' == r.reserved && fatal == r.fatal && rng' == r.rng
    {
      SpawnAllRunNext(bs, m, hoods, parked, reserved, rng, k);
      ghost var b := SpawnBatch(bs[k], m, hoods, parked, reserved', rng');
      reserved', fatal, rng' := SpawnOverTimeBatch(sim, m, hoods, bs[k], reserved', rng');
      AppendAssoc(old(sim.trips), r.trips, b.trips);
      r := Run(r.trips + b.trips, b.reserved, b.fatal, b.rng);
      k := k + 1;
    }
    if fatal.Some? {
      SpawnAllRunStops(bs, m, hoods, parked, reserved, rng, k);
    } else {
      assert bs[..k] == bs;
    }
  }

  /** The BorderSpawnOverTime batches on the simulation: the trips queued,
      the panic and the stream are exactly BorderAllRun's. */
  method BorderAll(sc: Scenario, sim: Sim, m: Map, hoods: Neighborhoods, rng: Rng)
    returns (fatal: Option<Fatal>, rng': Rng)
    modifies sim
    ensures sim.parked == old(sim.parked) && sim.carCounter == old(sim.carCounter)
    ensures var q := BorderAllRun(sc.borderSpawnOverTime, m, hoods, rng);
      sim.trips == old(sim.trips) + q.trips && fatal == q.fatal && rng' == q.rng
  {
    fatal, rng' := None, rng;
    var bs := sc.borderSpawnOverTime;
    var k := 0;
    assert bs[..0] == [] && sim.trips == old(sim.trips) + [];
    ghost var q := BorderAllRun(bs[..0], m, hoods, rng);
    while k < |bs| && fatal.None?
      invariant k <= |bs| && q == BorderAllRun(bs[..k], m, hoods, rng)
      invariant sim.parked == old(sim.parked) && sim.carCounter == old(sim.carCounter)
      invariant sim.trips == old(sim.trips) + q.trips && fatal == q.fatal && rng' == q.rng
    {
      fatal, rng', q := BorderNext(sim, m, hoods, bs, k, old(sim.trips), rng, q, rng');
      k := k + 1;
    }
    if fatal.Some? {
      BorderAllRunStops(bs, m, hoods, rng, k);
    } else {
      assert bs[..k] == bs;
    }
  }

  /** Border batch k on the simulation, after the batches before it ran
      without a panic: the run over the first k + 1 batches. */
  method BorderNext(sim: Sim, m: Map, hoods: Neighborhoods, bs: seq<BorderSpawnOverTime>, k: nat,
                    ghost trips: seq<ScheduledTrip>, ghost rng: Rng, ghost q: Queued, cur: Rng)
    returns (fatal: Option<Fatal>, rng': Rng, ghost q': Queued)
    requires k < |bs| && q == BorderAllRun(bs[..k], m, hoods, rng) && q.fatal.None? && cur == q.rng
    requires sim.trips == trips + q.trips
    modifies sim
    ensures sim.parked == old(sim.parked) && sim.carCounter == old(sim.carCounter)
    ensures q' == BorderAllRun(bs[..k + 1], m, hoods, rng)
    ensures sim.trips == trips + q'.trips && fatal == q'.fatal && rng' == q'.rng
  {
    BorderAllRunNext(bs, m, hoods, rng, k);
    ghost var b := BorderBatch(bs[k], m, hoods, cur);
    fatal, rng' := BorderSpawn(sim, m, hoods, bs[k], cur);
    AppendAssoc(trips, q.trips, b.trips);
    q' := Queued(q.trips + b.trips, b.fatal, b.rng);
  }


  /** Every seeding request names a defined neighbourhood. */
  predicate SeedsDefined(sc: Scenario, hoods: Neighborhoods) {
    forall k :: 0 <= k < |sc.seedParkedCars| ==> sc.seedParkedCars[k].neighborhood in hoods
  }

  /** No SpawnOverTime and no BorderSpawnOverTime batch meets a panic. */
  predicate BatchesRun(sc: Scenario, m: Map, hoods: Neighborhoods) {
    (forall k :: 0 <= k < |sc.spawnOverTime| ==> BatchPanic(sc.spawnOverTime[k], hoods).None?)
    && (forall k :: 0 <= k < |sc.borderSpawnOverTime| ==> BorderBatchPanic(m, sc.borderSpawnOverTime[k], hoods).None?)
  }

  /** instantiate runs to the end: no seeding request names an undefined
      neighbourhood and no batch meets a panic. */
  predicate ScenarioRuns(sc: Scenario, m: Map, hoods: Neighborhoods) {
    SeedsDefined(sc, hoods) && BatchesRun(sc, m, hoods)
  }

  /** What instantiate queues after seeding: the SpawnOverTime batches with
      one reservation set, starting empty, then, unless they panicked, the
      border batches on the stream they leave. */
  function QueueAll(sc: Scenario, m: Map, hoods: Neighborhoods, parked: seq<ParkedCar>, rng: Rng): (r: Run)
    ensures |r.trips| <= SpawnAgents(sc.spawnOverTime) + BorderAgents(sc.borderSpawnOverTime)
  {
    var sp := SpawnAllRun(sc.spawnOverTime, m, hoods, parked, {}, rng);
    if sp.fatal.Some? then sp
    else
      var bo := BorderAllRun(sc.borderSpawnOverTime, m, hoods, sp.rng);
      Run(sp.trips + bo.trips, sp.reserved, bo.fatal, bo.rng)
  }

  /** The queueing panics exactly when some batch meets a panic. */
  lemma QueueAllPanic(sc: Scenario, m: Map, hoods: Neighborhoods, parked: seq<ParkedCar>, rng: Rng)
    ensures QueueAll(sc, m, hoods, parked, rng).fatal.None? <==> BatchesRun(sc, m, hoods)
  {
    var sp := SpawnAllRun(sc.spawnOverTime, m, hoods, parked, {}, rng);
    SpawnAllPanic(sc.spawnOverTime, m, hoods, parked, {}, rng);
    FirstPanicIsFirst(SpawnPanics(sc.spawnOverTime, hoods));
    BorderAllPanic(sc.borderSpawnOverTime, m, hoods, sp.rng);
    FirstPanicIsFirst(BorderPanics(m, sc.borderSpawnOverTime, hoods));
  }

  /** No parked car is driven by two of the queued trips, each driven car is
      reserved and is driven from its owner's building, and every trip is a
      trip of one of the batches. */
  lemma QueueAllSound(sc: Scenario, m: Map, hoods: Neighborhoods, parked: seq<ParkedCar>, rng: Rng)
    requires forall i, j :: 0 <= i < j < |parked| ==> parked[i].spot != parked[j].spot
    ensures var q := QueueAll(sc, m, hoods, parked, rng);
      TripsSound(parked, q.reserved, q.trips, 0)
      && forall t :: t in q.trips ==> SpawnedBy(m, hoods, sc.spawnOverTime, t) || BorderedBy(m, sc.borderSpawnOverTime, t)
  {
    var sp := SpawnAllRun(sc.spawnOverTime, m, hoods, parked, {}, rng);
    assert TripsSound(parked, {}, [], 0);
    SpawnAllSound(sc.spawnOverTime, m, hoods, parked, {}, rng, [], 0);
    SpawnAllTrips(sc.spawnOverTime, m, hoods, parked, {}, rng);
    assert [] + sp.trips == sp.trips;
    if sp.fatal.None? {
      var bo := BorderAllRun(sc.borderSpawnOverTime, m, hoods, sp.rng);
      BorderAllTrips(sc.borderSpawnOverTime, m, hoods, sp.rng);
      BorderBatchesNoCar(sc.borderSpawnOverTime, m, hoods, sp.rng);
      NoCarTripsKeepSound(parked, sp.reserved, sp.trips, bo.trips, 0);
    }
  }

  /** Scenario::instantiate, up to queueing the trips. `stages`, `streams`
      and `reports` record the seeding requests run, as SeedAll gives
      them; `seeded` is the stream as seeding leaves it. */
  method Instantiate(sc: Scenario, sim: Sim, m: Map, hoods: Neighborhoods, rng: Rng)
    returns (fatal: Option<Fatal>, rng': Rng, ghost seeded: Rng,
             ghost stages: seq<seq<ParkedCar>>, ghost streams: seq<Rng>, ghost reports: seq<SeedReport>)
    requires sim.Valid() && WellFormedHoods(m, hoods)
    modifies sim
    ensures sim.Valid()
    // the parked cars and the stream are those the seeding requests leave, run in order
    ensures SeededInOrder(m, hoods, sc.seedParkedCars, old(sim.carCounter), rng, stages, streams, reports)
    ensures stages[0] == old(sim.parked) && Last(stages) == sim.parked && Last(streams) == seeded
    ensures sim.carCounter == old(sim.carCounter) + (|sim.parked| - |old(sim.parked)|)
    ensures |stages| == |sc.seedParkedCars| + 1 <==> SeedsDefined(sc, hoods)
    ensures |old(sim.parked)| <= |sim.parked| && sim.parked[..|old(sim.parked)|] == old(sim.parked)
    // the run ends early exactly when a seeding request names an undefined
    // neighbourhood or a batch meets a panic
    ensures fatal.None? <==> ScenarioRuns(sc, m, hoods)
    // after seeding, the trips queued, the panic and the stream are QueueAll's
    ensures SeedsDefined(sc, hoods) ==>
      var q := QueueAll(sc, m, hoods, sim.parked, seeded);
      sim.trips == old(sim.trips) + q.trips && fatal == q.fatal && rng' == q.rng
    ensures !SeedsDefined(sc, hoods) ==> sim.trips == old(sim.trips)
    // no parked car is driven by two trips, and each is driven from its owner's building
    ensures NoDup(ParkedCarSpots(sim.trips[|old(sim.trips)|..]))
    ensures forall s :: s in ParkedCarSpots(sim.trips[|old(sim.trips)|..]) ==> Occupied(sim.parked, s)
    ensures forall k :: |old(sim.trips)| <= k < |sim.trips| ==> DrivesOwnCar(sim.parked, sim.trips[k])
  {
    fatal, rng', stages, streams, reports := SeedAll(sc, sim, m, hoods, rng);
    seeded := rng';
    SeededInOrderIds(m, hoods, sc.seedParkedCars, old(sim.carCounter), rng, stages, streams, reports, |stages| - 1);
    if fatal.Some? {
      assert sim.trips[|old(sim.trips)|..] == [];
      return;
    }
    ghost var before := sim.trips;
    fatal, rng' := QueueTrips(sc, sim, m, hoods, rng');
    QueueAllPanic(sc, m, hoods, sim.parked, seeded);
    QueuedTripsSound(sc, m, hoods, sim.parked, seeded, before, sim.trips);
  }

  /** The batches of instantiate on the simulation: the SpawnOverTime
      batches with a reservation set that starts empty, then, unless they
      panicked, the border batches; the trips queued, the panic and the
      stream are QueueAll's. */
  method QueueTrips(sc: Scenario, sim: Sim, m: Map, hoods: Neighborhoods, rng: Rng)
    returns (fatal: Option<Fatal>, rng': Rng)
    modifies sim
    ensures sim.parked == old(sim.parked) && sim.carCounter == old(sim.carCounter)
    ensures var q := QueueAll(sc, m, hoods, old(sim.parked), rng);
      sim.trips == old(sim.trips) + q.trips && fatal == q.fatal && rng' == q.rng
  {
    var reserved: set<CarId>;
    reserved, fatal, rng' := SpawnAll(sc, sim, m, hoods, {}, rng);
    if fatal.None? {
      ghost var sp := SpawnAllRun(sc.spawnOverTime, m, hoods, sim.parked, {}, rng);
      ghost var bo := BorderAllRun(sc.borderSpawnOverTime, m, hoods, rng');
      fatal, rng' := BorderAll(sc, sim, m, hoods, rng');
      AppendAssoc(old(sim.trips), sp.trips, bo.trips);
    }
  }

  /** What instantiate queues after the trips it was given: no parked car is
      driven by two of its trips, each driven car is parked, and each trip
      that drives one starts at its owner's building. */
  lemma QueuedTripsSound(sc: Scenario, m: Map, hoods: Neighborhoods, parked: seq<ParkedCar>, rng: Rng,
                         before: seq<ScheduledTrip>, after: seq<ScheduledTrip>)
    requires forall i, j :: 0 <= i < j < |parked| ==> parked[i].spot != parked[j].spot
    requires after == before + QueueAll(sc, m, hoods, parked, rng).trips
    ensures NoDup(ParkedCarSpots(after[|before|..]))
    ensures forall s :: s in ParkedCarSpots(after[|before|..]) ==> Occupied(parked, s)
    ensures forall k :: |before| <= k < |after| ==> DrivesOwnCar(parked, after[k])
  {
    var q := QueueAll(sc, m, hoods, parked, rng);
    assert after[|before|..] == q.trips;
    QueueAllSound(sc, m, hoods, parked, rng);
    assert q.trips[0..] == q.trips;
    ReservedSpotsOccupied(parked, q.reserved, q.trips);
    forall k | |before| <= k < |after|
      ensures DrivesOwnCar(parked, after[k])
    {
      assert after[k] == q.trips[k - |before|];
    }
  }

  /** A reserved car's spot is a parked car's spot. */
  lemma ReservedSpotsOccupied(parked: seq<ParkedCar>, reserved: set<CarId>, trips: seq<ScheduledTrip>)
    requires Reservations(parked, reserved, trips)
    ensures forall s :: s in ParkedCarSpots(trips) ==> Occupied(parked, s)
  {
    forall s | s in ParkedCarSpots(trips)
      ensures Occupied(parked, s)
    {
      var i :| 0 <= i < |parked| && parked[i].spot == s && parked[i].id in reserved;
    }
  }

}
