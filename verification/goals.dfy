/** Goal resolution: turning an abstract origin/destination (a named
    neighbourhood or a border intersection) into a concrete, mode-specific
    goal (scenario.rs, `OriginDestination::pick_*_goal`). */
module Goals {
  import opened Common
  import opened Oracle
  import opened MapModel
  import opened DesSim

  datatype OriginDestination = Neighborhood(name: string) | Border(i: IntersectionId)

  /** A neighbourhood's buildings and roads (the roads are a set, kept in ascending order). */
  datatype NeighborhoodInfo = NeighborhoodInfo(buildings: seq<BuildingId>, roads: seq<RoadId>)

  type Neighborhoods = map<string, NeighborhoodInfo>

  /** The ways instantiation aborts: each is a panic in the source. */
  datatype Fatal =
    | UndefinedNeighborhood(name: string)   // a lookup of a name that is not defined
    | NoBuildings(name: string)             // choosing from an empty building list
    | EmptyTimeWindow(start: nat, stop: nat) // sampling a time from an empty window

  /** A resolved goal, a goal that cannot be resolved (the agent is skipped
      with a warning), or a fatal error. */
  datatype Resolution<+T> = Resolved(goal: T) | Unresolved | Failed(fatal: Fatal)

  /** The panic a lookup of the named neighbourhood meets, if any. */
  function NeighborhoodPanic(hoods: Neighborhoods, name: string): (r: Option<Fatal>)
    ensures r.None? <==> name in hoods && hoods[name].buildings != []
    ensures r.Some? ==> !r.value.EmptyTimeWindow? && r.value.name == name
    ensures r.Some? ==> (r.value.UndefinedNeighborhood? <==> name !in hoods)
  {
    if name !in hoods then Some(UndefinedNeighborhood(name))
    else if hoods[name].buildings == [] then Some(NoBuildings(name))
    else None
  }

  /** The panic resolving a goal meets, if any: a border never panics. */
  function GoalPanic(od: OriginDestination, hoods: Neighborhoods): (r: Option<Fatal>)
    ensures r.None? <==> od.Border? || (od.name in hoods && hoods[od.name].buildings != [])
    ensures r.Some? ==> od.Neighborhood? && !r.value.EmptyTimeWindow? && r.value.name == od.name
  {
    if od.Border? then None else NeighborhoodPanic(hoods, od.name)
  }

  /** A uniformly drawn building of the named neighbourhood. */
  function PickBuilding(hoods: Neighborhoods, name: string, rng: Rng): (r: (Resolution<BuildingId>, Rng))
    ensures !r.0.Unresolved?
    ensures name !in hoods ==> r.0 == Failed(UndefinedNeighborhood(name))
    ensures name in hoods && hoods[name].buildings == [] ==> r.0 == Failed(NoBuildings(name))
    ensures name in hoods && hoods[name].buildings != [] ==> r.0.Resolved?
    ensures r.0.Resolved? ==> name in hoods && r.0.goal in hoods[name].buildings
  {
    if name !in hoods then (Failed(UndefinedNeighborhood(name)), rng)
    else if hoods[name].buildings == [] then (Failed(NoBuildings(name)), rng)
    else
      var (k, rng') := ChooseIndex(rng, |hoods[name].buildings|);
      (Resolved(hoods[name].buildings[k]), rng')
  }

  /** Parking near a uniformly drawn building of the neighbourhood. */
  function ParkNearSomeBuilding(hoods: Neighborhoods, name: string, rng: Rng): (Resolution<DrivingGoal>, Rng) {
    var (b, rng') := PickBuilding(hoods, name, rng);
    match b
    case Resolved(x) => (Resolved(ParkNear(x)), rng')
    case Unresolved => (Unresolved, rng')
    case Failed(f) => (Failed(f), rng')
  }

  /** pick_driving_goal */
  function PickDrivingGoal(od: OriginDestination, m: Map, hoods: Neighborhoods, rng: Rng): (r: (Resolution<DrivingGoal>, Rng))
    ensures r.0.Failed? <==> GoalPanic(od, hoods).Some?
    ensures r.0.Failed? ==> Some(r.0.fatal) == GoalPanic(od, hoods)
    ensures od.Border? ==> !r.0.Failed?
    ensures od.Border? ==> (r.0.Unresolved? <==> m.incomingLanes(od.i, Driving) == [])
    ensures od.Border? && r.0.Resolved? ==> r.0.goal == DrivingGoal.Border(od.i, m.incomingLanes(od.i, Driving)[0])
    ensures od.Neighborhood? ==> !r.0.Unresolved?
    ensures od.Neighborhood? ==> (r.0.Failed? <==> od.name !in hoods || hoods[od.name].buildings == [])
    ensures od.Neighborhood? && r.0.Resolved? ==> r.0.goal.ParkNear? && r.0.goal.b in hoods[od.name].buildings
  {
    match od
    case Neighborhood(n) => ParkNearSomeBuilding(hoods, n, rng)
    case Border(i) =>
      var lanes := m.incomingLanes(i, Driving);
      if lanes == [] then (Unresolved, rng)
      else (Resolved(DrivingGoal.Border(i, lanes[0])), rng)
  }

  /** pick_biking_goal: a border prefers incoming biking lanes, then driving lanes. */
  function PickBikingGoal(od: OriginDestination, m: Map, hoods: Neighborhoods, rng: Rng): (r: (Resolution<DrivingGoal>, Rng))
    ensures r.0.Failed? <==> GoalPanic(od, hoods).Some?
    ensures r.0.Failed? ==> Some(r.0.fatal) == GoalPanic(od, hoods)
    ensures od.Border? ==> !r.0.Failed?
    ensures od.Border? ==>
      (r.0.Unresolved? <==> m.incomingLanes(od.i, Biking) == [] && m.incomingLanes(od.i, Driving) == [])
    ensures od.Border? && r.0.Resolved? && m.incomingLanes(od.i, Biking) != [] ==>
      r.0.goal == DrivingGoal.Border(od.i, m.incomingLanes(od.i, Biking)[0])
    ensures od.Border? && r.0.Resolved? && m.incomingLanes(od.i, Biking) == [] ==>
      r.0.goal == DrivingGoal.Border(od.i, m.incomingLanes(od.i, Driving)[0])
    ensures od.Neighborhood? ==> !r.0.Unresolved?
    ensures od.Neighborhood? ==> (r.0.Failed? <==> od.name !in hoods || hoods[od.name].buildings == [])
    ensures od.Neighborhood? && r.0.Resolved? ==> r.0.goal.ParkNear? && r.0.goal.b in hoods[od.name].buildings
  {
    match od
    case Neighborhood(n) => ParkNearSomeBuilding(hoods, n, rng)
    case Border(i) =>
      var lanes := m.incomingLanes(i, Biking) + m.incomingLanes(i, Driving);
      if lanes == [] then (Unresolved, rng)
      else (Resolved(DrivingGoal.Border(i, lanes[0])), rng)
  }

  /** pick_walking_goal: a building's sidewalk, or the border's sidewalk end. */
  function PickWalkingGoal(od: OriginDestination, m: Map, hoods: Neighborhoods, rng: Rng): (r: (Resolution<SidewalkSpot>, Rng))
    ensures r.0.Failed? <==> GoalPanic(od, hoods).Some?
    ensures r.0.Failed? ==> Some(r.0.fatal) == GoalPanic(od, hoods)
    ensures od.Border? ==> !r.0.Failed?
    ensures od.Border? ==> (r.0.Unresolved? <==> m.borderEnd(od.i).None?)
    ensures od.Border? && r.0.Resolved? ==> r.0.goal == SidewalkSpot(BorderPOI(od.i), m.borderEnd(od.i).value)
    ensures od.Neighborhood? ==> !r.0.Unresolved?
    ensures od.Neighborhood? ==> (r.0.Failed? <==> od.name !in hoods || hoods[od.name].buildings == [])
    ensures od.Neighborhood? && r.0.Resolved? ==>
      r.0.goal.connection.BuildingPOI? && r.0.goal.connection.b in hoods[od.name].buildings
      && r.0.goal == BuildingSpot(m, r.0.goal.connection.b)
  {
    match od
    case Neighborhood(n) =>
      var (b, rng') := PickBuilding(hoods, n, rng);
      (match b
       case Resolved(x) => Resolved(BuildingSpot(m, x))
       case Unresolved => Unresolved
       case Failed(f) => Failed(f), rng')
    case Border(i) =>
      match m.borderEnd(i)
      case None => (Unresolved, rng)
      case Some(p) => (Resolved(SidewalkSpot(BorderPOI(i), p)), rng)
  }

  /** At a border, a bike can end wherever a car can, and at exactly the
      same lane when the border has no incoming biking lane. */
  lemma BikingFallsBackToDriving(od: OriginDestination, m: Map, hoods: Neighborhoods, rng: Rng)
    requires od.Border?
    ensures PickDrivingGoal(od, m, hoods, rng).0.Resolved? ==> PickBikingGoal(od, m, hoods, rng).0.Resolved?
    ensures m.incomingLanes(od.i, Biking) == [] ==>
      PickBikingGoal(od, m, hoods, rng).0 == PickDrivingGoal(od, m, hoods, rng).0
  {
  }
}
