/** The road network, seen only through the queries the core asks of it.

    The map is not modelled: each query is a field holding an arbitrary
    function, so every property proved here holds of every map. */
module MapModel {
  import opened Common

  /** One slot on a parking lane. */
  datatype ParkingSpot = ParkingSpot(lane: LaneId, idx: nat)

  /** A distance along a lane. */
  datatype Position = Position(lane: LaneId, dist: nat)

  /** What a transit query returns: boarding stop, alighting stop, route. */
  datatype TransitLeg = TransitLeg(stop1: nat, stop2: nat, route: nat)

  datatype Map = Map(
    // building_to_road
    buildingRoad: BuildingId -> RoadId,
    // the point where a building's front path meets its sidewalk
    buildingSidewalk: BuildingId -> Position,
    // get_next_roads
    nextRoads: RoadId -> seq<RoadId>,
    // a road's children_forwards and children_backwards
    childrenForwards: RoadId -> seq<(LaneId, LaneType)>,
    childrenBackwards: RoadId -> seq<(LaneId, LaneType)>,
    laneType: LaneId -> LaneType,
    // the road a lane belongs to (get_parent, lane.parent)
    laneParent: LaneId -> RoadId,
    laneLength: LaneId -> nat,
    // how many parking slots a parking lane has
    parkingSlots: LaneId -> nat,
    supportsBikes: RoadId -> bool,
    // get_incoming_lanes / get_outgoing_lanes of an intersection, by lane type
    incomingLanes: (IntersectionId, LaneType) -> seq<LaneId>,
    outgoingLanes: (IntersectionId, LaneType) -> seq<LaneId>,
    // the sidewalk position where pedestrians appear at, or leave by, a border
    borderStart: IntersectionId -> Option<Position>,
    borderEnd: IntersectionId -> Option<Position>,
    // Pathfinder::should_use_transit
    transit: (Position, Position) -> Option<TransitLeg>,
    // a road's find_parking_lane / find_driving_lane for one of its lanes
    findParkingLane: LaneId -> Option<LaneId>,
    findDrivingLane: LaneId -> Option<LaneId>
  ) {
    /** The lanes of a road in both directions, forwards first. */
    function Children(r: RoadId): seq<(LaneId, LaneType)> {
      childrenForwards(r) + childrenBackwards(r)
    }

    /** A road lists each lane once, and every lane it lists has it as parent. */
    ghost predicate LanesBelongTo(r: RoadId) {
      var lanes := Children(r);
      (forall i, j :: 0 <= i < j < |lanes| ==> lanes[i].0 != lanes[j].0)
      && (forall i :: 0 <= i < |lanes| ==> laneParent(lanes[i].0) == r)
    }
  }
}
