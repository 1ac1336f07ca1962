/** The discrete-event simulation that a scenario is instantiated into, reduced
    to what instantiation reads and writes: the parked cars (with their spots
    and owners), the vehicle-id counter, and the queue of scheduled trips.
    Also the trip vocabulary that the scheduler accepts. */
module DesSim {
  import opened Common
  import opened MapModel

  /** Bikes are spawned with the Bus vehicle type by the source; kept as is. */
  datatype VehicleType = Car | Bus

  /** Lengths are centimetres; a speed limit, when present, is in miles per hour. */
  datatype VehicleSpec = VehicleSpec(vehicleType: VehicleType, length: nat, maxSpeed: Option<nat>)

  datatype ParkedCar = ParkedCar(id: CarId, vehicle: VehicleSpec, spot: ParkingSpot, owner: Option<BuildingId>)

  datatype SidewalkPOI = BuildingPOI(b: BuildingId) | BorderPOI(i: IntersectionId)

  datatype SidewalkSpot = SidewalkSpot(connection: SidewalkPOI, pos: Position)

  datatype DrivingGoal = ParkNear(b: BuildingId) | Border(i: IntersectionId, lane: LaneId)

  datatype TripSpec =
    | UsingParkedCar(start: SidewalkSpot, spot: ParkingSpot, goal: DrivingGoal)
    | UsingBike(start: SidewalkSpot, vehicle: VehicleSpec, goal: DrivingGoal)
    | JustWalking(start: SidewalkSpot, walkGoal: SidewalkSpot)
    | UsingTransit(start: SidewalkSpot, route: nat, stop1: nat, stop2: nat, walkGoal: SidewalkSpot)
    | CarAppearing(pos: Position, vehicle: VehicleSpec, goal: DrivingGoal)

  datatype ScheduledTrip = ScheduledTrip(time: nat, spec: TripSpec)

  /** SidewalkSpot::building: a building's front door on its sidewalk. */
  function BuildingSpot(m: Map, b: BuildingId): SidewalkSpot {
    SidewalkSpot(BuildingPOI(b), m.buildingSidewalk(b))
  }

  predicate Occupied(parked: seq<ParkedCar>, s: ParkingSpot) {
    exists i :: 0 <= i < |parked| && parked[i].spot == s
  }

  /** The free spots among the first n slots of a lane, in slot order. */
  function FreeSlots(parked: seq<ParkedCar>, lane: LaneId, n: nat): (r: seq<ParkingSpot>)
    ensures forall k :: 0 <= k < |r| ==> r[k].lane == lane && r[k].idx < n && !Occupied(parked, r[k])
    ensures forall idx: nat :: idx < n && !Occupied(parked, ParkingSpot(lane, idx)) ==> ParkingSpot(lane, idx) in r
    ensures NoDup(r)
  {
    if n == 0 then []
    else
      var prev := FreeSlots(parked, lane, n - 1);
      var s := ParkingSpot(lane, n - 1);
      if Occupied(parked, s) then prev
      else
        assert s !in prev;
        prev + [s]
  }

  /** get_free_spots: exactly the unoccupied slots of the lane. */
  function FreeSpots(m: Map, parked: seq<ParkedCar>, lane: LaneId): seq<ParkingSpot> {
    FreeSlots(parked, lane, m.parkingSlots(lane))
  }

  /** The cars a building owns, in the order they were parked. */
  function OwnedBy(parked: seq<ParkedCar>, b: BuildingId): (r: seq<ParkedCar>)
    ensures forall c :: c in r <==> c in parked && c.owner == Some(b)
  {
    if parked == [] then []
    else
      var prev := OwnedBy(DropLast(parked), b);
      assert parked == DropLast(parked) + [Last(parked)];
      if Last(parked).owner == Some(b) then prev + [Last(parked)] else prev
  }

  class Sim {
    var parked: seq<ParkedCar>
    var carCounter: nat
    var trips: seq<ScheduledTrip>

    /** Vehicle ids come from the counter; no two parked cars share an id or a spot. */
    ghost predicate Valid()
      reads this
    {
      (forall i :: 0 <= i < |parked| ==> parked[i].id < carCounter)
      && (forall i, j :: 0 <= i < j < |parked| ==> parked[i].id != parked[j].id && parked[i].spot != parked[j].spot)
    }

    constructor ()
      ensures Valid()
      ensures parked == [] && carCounter == 0 && trips == []
    {
      parked := [];
      carCounter := 0;
      trips := [];
    }

    function GetFreeSpots(m: Map, lane: LaneId): seq<ParkingSpot>
      reads this
    {
      FreeSpots(m, parked, lane)
    }

    function GetParkedCarsByOwner(b: BuildingId): seq<ParkedCar>
      reads this
    {
      OwnedBy(parked, b)
    }

    /** seed_parked_car: a fresh id, bound to a free spot and an owner. */
    method SeedParkedCar(vehicle: VehicleSpec, spot: ParkingSpot, owner: Option<BuildingId>)
      requires Valid()
      requires !Occupied(parked, spot)
      modifies this
      ensures Valid()
      ensures carCounter == old(carCounter) + 1
      ensures parked == old(parked) + [ParkedCar(old(carCounter), vehicle, spot, owner)]
      ensures trips == old(trips)
    {
      parked := parked + [ParkedCar(carCounter, vehicle, spot, owner)];
      carCounter := carCounter + 1;
    }

    /** schedule_trip: queue a trip without realising it. */
    method ScheduleTrip(time: nat, spec: TripSpec)
      modifies this
      ensures trips == old(trips) + [ScheduledTrip(time, spec)]
      ensures parked == old(parked) && carCounter == old(carCounter)
    {
      trips := trips + [ScheduledTrip(time, spec)];
    }
  }
}
