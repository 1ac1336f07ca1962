/** seed_parked_cars of scenario.rs: collect the free spots of a
    neighbourhood's roads into shuffled per-road stacks, then give each owner
    building a sampled number of cars, each parked at a free spot of a road
    the neighbourhood search reaches from the building's road. */
module Seeding {
  import opened Common
  import opened Oracle
  import opened MapModel
  import opened DesSim
  import opened Sampling
  import opened Parking

  // ---------------------------------------------------------------------
  // The free spots of a road

  /** The free spots of the parking lanes among `lanes`, lane by lane. */
  function LaneSpots(m: Map, parked: seq<ParkedCar>, lanes: seq<(LaneId, LaneType)>): (r: seq<ParkingSpot>)
    ensures forall s :: s in r ==>
      (s.lane, Parking) in lanes && s.idx < m.parkingSlots(s.lane) && !Occupied(parked, s)
    ensures forall l: LaneId, idx: nat ::
      (l, Parking) in lanes && idx < m.parkingSlots(l) && !Occupied(parked, ParkingSpot(l, idx))
      ==> ParkingSpot(l, idx) in r
  {
    if lanes == [] then []
    else
      var prev := LaneSpots(m, parked, DropLast(lanes));
      assert lanes == DropLast(lanes) + [Last(lanes)];
      if Last(lanes).1 == Parking then prev + FreeSpots(m, parked, Last(lanes).0) else prev
  }

  /** The free spots of a road's parking lanes, forwards lanes first. */
  function RoadSpots(m: Map, parked: seq<ParkedCar>, r: RoadId): seq<ParkingSpot> {
    LaneSpots(m, parked, m.Children(r))
  }

  /** A road that lists each lane once lists each of its free spots once. */
  lemma {:induction false} LaneSpotsNoDup(m: Map, parked: seq<ParkedCar>, lanes: seq<(LaneId, LaneType)>)
    requires forall i, j :: 0 <= i < j < |lanes| ==> lanes[i].0 != lanes[j].0
    ensures NoDup(LaneSpots(m, parked, lanes))
  {
    if lanes != [] {
      var front := DropLast(lanes);
      var prev := LaneSpots(m, parked, front);
      LaneSpotsNoDup(m, parked, front);
      if Last(lanes).1 == Parking {
        var added := FreeSpots(m, parked, Last(lanes).0);
        forall s | s in prev
          ensures s.lane != Last(lanes).0
        {
          var k :| 0 <= k < |front| && front[k] == (s.lane, Parking);
          assert lanes[k].0 != lanes[|lanes| - 1].0;
        }
        forall x
          ensures multiset(prev + added)[x] <= 1
        {
          assert multiset(prev + added)[x] == multiset(prev)[x] + multiset(added)[x];
          if x in added {
            assert x !in prev;
          }
        }
      }
    }
  }

  /** The number of free spots over a list of roads. */
  function TotalFreeSpots(m: Map, parked: seq<ParkedCar>, rs: seq<RoadId>): nat {
    if rs == [] then 0 else TotalFreeSpots(m, parked, DropLast(rs)) + |RoadSpots(m, parked, Last(rs))|
  }

  // ---------------------------------------------------------------------
  // The per-road stacks

  /** Every stack lists distinct spots, each a free slot of a parking lane of
      the stack's own road. */
  ghost predicate StacksSound(m: Map, parked: seq<ParkedCar>, open: SpotTable) {
    forall r :: r in open ==>
      NoDup(open[r])
      && forall s :: s in open[r] ==>
        (s.lane, Parking) in m.Children(r) && m.laneParent(s.lane) == r
        && s.idx < m.parkingSlots(s.lane) && !Occupied(parked, s)
  }

  /** The number of spots left on the stacks of the listed roads. */
  function StackTotal(open: SpotTable, rs: seq<RoadId>): nat {
    if rs == [] then 0
    else StackTotal(open, DropLast(rs)) + (if Last(rs) in open then |open[Last(rs)]| else 0)
  }

  lemma {:induction false} StackTotalFrame(open: SpotTable, rs: seq<RoadId>, r: RoadId, x: seq<ParkingSpot>)
    requires r !in rs
    ensures StackTotal(open[r := x], rs) == StackTotal(open, rs)
  {
    if rs != [] {
      assert rs == DropLast(rs) + [Last(rs)];
      StackTotalFrame(open, DropLast(rs), r, x);
    }
  }

  /** Popping one stack of a listed road leaves one spot fewer in total. */
  lemma {:induction false} StackTotalPop(open: SpotTable, rs: seq<RoadId>, r: RoadId)
    requires NoDup(rs) && r in rs && r in open && open[r] != []
    ensures StackTotal(open[r := DropLast(open[r])], rs) + 1 == StackTotal(open, rs)
  {
    NoDupDropLast(rs);
    assert rs == DropLast(rs) + [Last(rs)];
    if Last(rs) == r {
      StackTotalFrame(open, DropLast(rs), r, DropLast(open[r]));
    } else {
      StackTotalPop(open, DropLast(rs), r);
    }
  }

  lemma OccupiedAppend(parked: seq<ParkedCar>, car: ParkedCar, s: ParkingSpot)
    ensures Occupied(parked + [car], s) <==> Occupied(parked, s) || car.spot == s
  {
    if Occupied(parked, s) {
      var i :| 0 <= i < |parked| && parked[i].spot == s;
      assert (parked + [car])[i].spot == s;
    }
    if car.spot == s {
      assert (parked + [car])[|parked|].spot == s;
    }
  }

  lemma OccupiedPrefix(parked: seq<ParkedCar>, k: nat, s: ParkingSpot)
    requires k <= |parked| && !Occupied(parked, s)
    ensures !Occupied(parked[..k], s)
  {
    forall i | 0 <= i < k
      ensures parked[..k][i].spot != s
    {
      assert parked[..k][i] == parked[i];
    }
  }

  /** Seeding a car at the top spot of a stack keeps every stack sound: the
      spot is on no other stack. */
  lemma PopKeepsSound(m: Map, parked: seq<ParkedCar>, open: SpotTable, r: RoadId, car: ParkedCar)
    requires StacksSound(m, parked, open) && r in open && open[r] != []
    requires car.spot == Last(open[r])
    ensures StacksSound(m, parked + [car], open[r := DropLast(open[r])])
  {
    var open' := open[r := DropLast(open[r])];
    NoDupDropLast(open[r]);
    forall r', s | r' in open' && s in open'[r']
      ensures !Occupied(parked + [car], s)
    {
      OccupiedAppend(parked, car, s);
      if r' == r {
        assert s in open[r] && s != car.spot;
      } else {
        assert m.laneParent(s.lane) != m.laneParent(car.spot.lane);
      }
    }
  }

  /** s is a free slot of a parking lane of road r. */
  ghost predicate FreeSpotOf(m: Map, parked: seq<ParkedCar>, r: RoadId, s: ParkingSpot) {
    (s.lane, Parking) in m.Children(r) && s.idx < m.parkingSlots(s.lane) && !Occupied(parked, s)
  }

  /** Every free slot of a road with a stack is on that stack. */
  ghost predicate StacksComplete(m: Map, parked: seq<ParkedCar>, open: SpotTable) {
    forall r, s :: r in open && FreeSpotOf(m, parked, r, s) ==> s in open[r]
  }

  /** Seeding a car at the top spot of a stack keeps every stack complete:
      the only slot that stopped being free is the one popped. */
  lemma PopKeepsComplete(m: Map, parked: seq<ParkedCar>, open: SpotTable, r: RoadId, car: ParkedCar)
    requires StacksComplete(m, parked, open) && r in open && open[r] != []
    requires car.spot == Last(open[r])
    ensures StacksComplete(m, parked + [car], open[r := DropLast(open[r])])
  {
    var open' := open[r := DropLast(open[r])];
    forall r', s | r' in open' && FreeSpotOf(m, parked + [car], r', s)
      ensures s in open'[r']
    {
      OccupiedAppend(parked, car, s);
      assert FreeSpotOf(m, parked, r', s);
      if r' == r {
        assert open[r] == DropLast(open[r]) + [Last(open[r])];
      }
    }
  }

  /** An emptied stack of a complete table means the road has no free slot left. */
  lemma ExhaustedIsFull(m: Map, parked: seq<ParkedCar>, open: SpotTable, r: RoadId)
    requires StacksComplete(m, parked, open) && r in open && open[r] == []
    ensures RoadSpots(m, parked, r) == []
  {
    var spots := RoadSpots(m, parked, r);
    if spots != [] {
      assert spots[0] in spots;
      assert FreeSpotOf(m, parked, r, spots[0]);
      assert false;
    }
  }

  // ---------------------------------------------------------------------
  // Building the stacks

  /** The inner loop over a road's lanes: the free spots of its parking lanes. */
  method CollectRoadSpots(sim: Sim, m: Map, r: RoadId) returns (spots: seq<ParkingSpot>)
    ensures spots == RoadSpots(m, sim.parked, r)
  {
    var lanes := m.Children(r);
    spots := [];
    for k := 0 to |lanes|
      invariant spots == LaneSpots(m, sim.parked, lanes[..k])
    {
      assert DropLast(lanes[..k + 1]) == lanes[..k] && Last(lanes[..k + 1]) == lanes[k];
      if lanes[k].1 == Parking {
        spots := spots + sim.GetFreeSpots(m, lanes[k].0);
      }
    }
    assert lanes[..|lanes|] == lanes;
  }

  /** The stacks of the listed roads, each a permutation of that road's free
      spots, and their total size. */
  ghost predicate TableOf(m: Map, parked: seq<ParkedCar>, rs: seq<RoadId>, open: SpotTable, total: nat) {
    (forall r :: r in open <==> r in rs)
    && (forall r :: r in open ==> multiset(open[r]) == multiset(RoadSpots(m, parked, r)))
    && StacksSound(m, parked, open)
    && total == TotalFreeSpots(m, parked, rs) == StackTotal(open, rs)
  }

  /** A table of permutations of the roads' free spots misses none of them. */
  lemma TableComplete(m: Map, parked: seq<ParkedCar>, rs: seq<RoadId>, open: SpotTable, total: nat)
    requires TableOf(m, parked, rs, open, total)
    ensures StacksComplete(m, parked, open)
  {
    forall r, s | r in open && FreeSpotOf(m, parked, r, s)
      ensures s in open[r]
    {
      assert ParkingSpot(s.lane, s.idx) == s;
      assert s in RoadSpots(m, parked, r);
      assert s in multiset(RoadSpots(m, parked, r));
    }
  }

  /** A permutation of a road's free spots is a sound stack for it. */
  lemma StackOfRoadSound(m: Map, parked: seq<ParkedCar>, r: RoadId, open: SpotTable, stack: seq<ParkingSpot>)
    requires m.LanesBelongTo(r) && StacksSound(m, parked, open)
    requires multiset(stack) == multiset(RoadSpots(m, parked, r))
    ensures StacksSound(m, parked, open[r := stack])
  {
    var spots := RoadSpots(m, parked, r);
    LaneSpotsNoDup(m, parked, m.Children(r));
    forall s | s in stack
      ensures s in spots
    {
      assert s in multiset(stack);
    }
  }

  /** Adding the next road's stack extends the table. */
  lemma TableOfExtend(m: Map, parked: seq<ParkedCar>, rs: seq<RoadId>, r: RoadId,
                      open: SpotTable, total: nat, stack: seq<ParkingSpot>)
    requires r !in rs && m.LanesBelongTo(r)
    requires TableOf(m, parked, rs, open, total)
    requires multiset(stack) == multiset(RoadSpots(m, parked, r))
    ensures TableOf(m, parked, rs + [r], open[r := stack], total + |stack|)
  {
    StackOfRoadSound(m, parked, r, open, stack);
    StackTotalExtend(m, parked, rs, r, open, stack);
    forall x
      ensures x in open[r := stack] <==> x in rs + [r]
    {
      assert x in rs + [r] <==> x in rs || x == r;
    }
  }

  /** The totals grow by the new road's stack, which holds all its free spots. */
  lemma StackTotalExtend(m: Map, parked: seq<ParkedCar>, rs: seq<RoadId>, r: RoadId,
                         open: SpotTable, stack: seq<ParkingSpot>)
    requires r !in rs
    requires multiset(stack) == multiset(RoadSpots(m, parked, r))
    ensures StackTotal(open[r := stack], rs + [r]) == StackTotal(open, rs) + |stack|
    ensures TotalFreeSpots(m, parked, rs + [r]) == TotalFreeSpots(m, parked, rs) + |stack|
  {
    assert DropLast(rs + [r]) == rs && Last(rs + [r]) == r;
    assert |stack| == |multiset(stack)| == |RoadSpots(m, parked, r)|;
    StackTotalFrame(open, rs, r, stack);
  }

  /** A road's free spots, shuffled on the given stream. */
  method RoadStack(sim: Sim, m: Map, r: RoadId, rng: Rng) returns (stack: seq<ParkingSpot>)
    ensures multiset(stack) == multiset(RoadSpots(m, sim.parked, r))
  {
    var spots := CollectRoadSpots(sim, m, r);
    stack := Shuffle(spots, rng);
  }

  /** One shuffled stack per neighbourhood road, holding exactly that road's
      free spots; each road's shuffle runs on its own forked stream. */
  method BuildSpotTable(sim: Sim, m: Map, roads: seq<RoadId>, rng: Rng)
    returns (open: SpotTable, total: nat, rng': Rng)
    requires NoDup(roads)
    requires forall r :: r in roads ==> m.LanesBelongTo(r)
    ensures TableOf(m, sim.parked, roads, open, total)
    ensures rng' == rng.(pos := rng.pos + |roads|)
  {
    open, total, rng' := map[], 0, rng;
    for i := 0 to |roads|
      invariant TableOf(m, sim.parked, roads[..i], open, total)
      invariant rng' == rng.(pos := rng.pos + i)
    {
      var r := roads[i];
      var (child, next) := rng'.Fork();
      var stack := RoadStack(sim, m, r, child);
      NoDupNotBefore(roads, i);
      TableOfExtend(m, sim.parked, roads[..i], r, open, total, stack);
      TakeOneMore(roads, i);
      open, total, rng' := open[r := stack], total + |stack|, next;
    }
    assert roads[..|roads|] == roads;
  }

  // ---------------------------------------------------------------------
  // Seeding

  /** A car seeded by this run: a sampled car, parked at a slot of a parking
      lane of a neighbourhood road that was free before the run. */
  ghost predicate SeededIn(m: Map, roads: seq<RoadId>, before: seq<ParkedCar>, c: ParkedCar) {
    c.vehicle.vehicleType == Car && MIN_CAR_LENGTH <= c.vehicle.length < MAX_CAR_LENGTH
    && m.laneParent(c.spot.lane) in roads
    && (c.spot.lane, Parking) in m.Children(m.laneParent(c.spot.lane))
    && c.spot.idx < m.parkingSlots(c.spot.lane)
    && !Occupied(before, c.spot)
  }

  /** `after` is `before` with cars appended, each seeded by this run for
      one of the listed owners. */
  ghost predicate SeededBy(m: Map, roads: seq<RoadId>, owners: seq<BuildingId>,
                           before: seq<ParkedCar>, after: seq<ParkedCar>) {
    |before| <= |after| && after[..|before|] == before
    && forall k :: |before| <= k < |after| ==>
      after[k].owner.Some? && after[k].owner.value in owners && SeededIn(m, roads, before, after[k])
  }

  /** Seeding in two stages is seeding for the owners of both. */
  lemma SeededByTrans(m: Map, roads: seq<RoadId>, owners: seq<BuildingId>, b: BuildingId,
                      p0: seq<ParkedCar>, p1: seq<ParkedCar>, p2: seq<ParkedCar>)
    requires SeededBy(m, roads, owners, p0, p1) && SeededBy(m, roads, [b], p1, p2)
    ensures SeededBy(m, roads, owners + [b], p0, p2)
  {
    assert p2[..|p0|] == p1[..|p0|];
    forall k | |p0| <= k < |p2|
      ensures p2[k].owner.Some? && p2[k].owner.value in owners + [b] && SeededIn(m, roads, p0, p2[k])
    {
      if k < |p1| {
        assert p2[k] == p1[k];
      } else {
        OccupiedPrefix(p1, |p0|, p2[k].spot);
      }
    }
  }

  /** The cars of `after` past `before` are building b's, in the order they
      were seeded: the j-th has the id `counter + j`, is the car drawn on the
      j-th fork of `rng`, and is parked on a road the search can reach from
      the building's road. */
  ghost predicate CarsFor(m: Map, roads: seq<RoadId>, b: BuildingId, counter: nat, rng: Rng,
                          before: seq<ParkedCar>, after: seq<ParkedCar>) {
    |before| <= |after| && after[..|before|] == before
    && forall j :: |before| <= j < |after| ==> CarFor(m, roads, b, counter, rng, before, after, j)
  }

  /** The j-th car of `after` is the building's (j - |before|)-th. */
  ghost predicate CarFor(m: Map, roads: seq<RoadId>, b: BuildingId, counter: nat, rng: Rng,
                         before: seq<ParkedCar>, after: seq<ParkedCar>, j: int) {
    |before| <= j < |after|
    && after[j] == ParkedCar(counter + (j - |before|), RandCar(rng.(pos := rng.pos + (j - |before|)).Fork().0).0,
                             after[j].spot, Some(b))
    && Reachable(m, roads, m.buildingRoad(b), m.laneParent(after[j].spot.lane))
  }

  /** One more car of the building, the next in order, extends its cars. */
  lemma CarsForExtend(m: Map, roads: seq<RoadId>, b: BuildingId, counter: nat, rng: Rng,
                      before: seq<ParkedCar>, after: seq<ParkedCar>, car: ParkedCar)
    requires CarsFor(m, roads, b, counter, rng, before, after)
    requires var j := |after| - |before|;
      car == ParkedCar(counter + j, RandCar(rng.(pos := rng.pos + j).Fork().0).0, car.spot, Some(b))
    requires Reachable(m, roads, m.buildingRoad(b), m.laneParent(car.spot.lane))
    ensures CarsFor(m, roads, b, counter, rng, before, after + [car])
  {
    var after' := after + [car];
    assert after'[..|before|] == after[..|before|];
    forall j | |before| <= j < |after'|
      ensures CarFor(m, roads, b, counter, rng, before, after', j)
    {
      if j < |after| {
        assert CarFor(m, roads, b, counter, rng, before, after, j);
        assert after'[j] == after[j];
      }
    }
  }

  /** The c-th car of the building, seeded at the top spot of a reachable
      road's stack, extends its cars. */
  lemma PlacedNext(m: Map, roads: seq<RoadId>, b: BuildingId, counter: nat, rng: Rng, base: seq<ParkedCar>,
                   cars: seq<ParkedCar>, open: SpotTable, from: RoadId, c: nat)
    requires CarsFor(m, roads, b, counter, rng, base, cars) && |cars| == |base| + c
    requires StacksSound(m, cars, open) && from in open && open[from] != []
    requires Reachable(m, roads, m.buildingRoad(b), from)
    ensures CarsFor(m, roads, b, counter, rng, base,
                    cars + [ParkedCar(counter + c, RandCar(rng.(pos := rng.pos + c).Fork().0).0, Last(open[from]), Some(b))])
  {
    assert Last(open[from]) in open[from];
    CarsForExtend(m, roads, b, counter, rng, base, cars,
                  ParkedCar(counter + c, RandCar(rng.(pos := rng.pos + c).Fork().0).0, Last(open[from]), Some(b)));
  }

  /** The cars for one building: each is drawn on its own fork of the stream
      and placed at the top spot of a road the search reaches from the
      building's road, or given up on once no such road has a spot left. */
  method SeedBuilding(sim: Sim, m: Map, roads: seq<RoadId>, b: BuildingId, count: nat,
                      open: SpotTable, rng: Rng)
    returns (placed: nat, open': SpotTable, rng': Rng)
    requires sim.Valid() && StacksSound(m, sim.parked, open) && StacksComplete(m, sim.parked, open)
    requires NoDup(roads) && forall r :: r in open ==> r in roads
    modifies sim
    ensures sim.Valid() && StacksSound(m, sim.parked, open') && StacksComplete(m, sim.parked, open')
    ensures open'.Keys == open.Keys
    ensures placed <= count
    // a car is given up on only once no road reachable from the building has a spot left
    ensures placed < count ==> NoReachableSpot(m, roads, b, open')
    // stacks only shrink
    ensures forall r :: NoFreeSpot(open, r) ==> NoFreeSpot(open', r)
    ensures StackTotal(open', roads) + placed == StackTotal(open, roads)
    ensures |sim.parked| == |old(sim.parked)| + placed && SeededBy(m, roads, [b], old(sim.parked), sim.parked)
    ensures sim.carCounter == old(sim.carCounter) + placed && sim.trips == old(sim.trips)
    // the cars placed are the building's, numbered in order, each drawn on its own fork
    // and parked on a road reachable from the building's road
    ensures CarsFor(m, roads, b, old(sim.carCounter), rng, old(sim.parked), sim.parked)
    ensures rng' == rng.(pos := rng.pos + count)
  {
    placed, open', rng' := 0, open, rng;
    for c := 0 to count
      invariant sim.Valid() && StacksSound(m, sim.parked, open') && StacksComplete(m, sim.parked, open')
      invariant open'.Keys == open.Keys
      invariant placed <= c
      invariant placed < c ==> NoReachableSpot(m, roads, b, open')
      invariant forall r :: NoFreeSpot(open, r) ==> NoFreeSpot(open', r)
      invariant StackTotal(open', roads) + placed == StackTotal(open, roads)
      invariant |sim.parked| == |old(sim.parked)| + placed && SeededBy(m, roads, [b], old(sim.parked), sim.parked)
      invariant sim.carCounter == old(sim.carCounter) + placed && sim.trips == old(sim.trips)
      invariant CarsFor(m, roads, b, old(sim.carCounter), rng, old(sim.parked), sim.parked)
      invariant rng' == rng.(pos := rng.pos + c)
    {
      var got;
      ghost var from;
      ghost var before := open';
      got, open', rng', from := SeedOneCar(sim, m, roads, b, open', old(sim.parked), old(sim.carCounter), rng, rng');
      if got {
        // once the search has failed it keeps failing, so nothing was given up on yet
        assert !NoFreeSpot(before, from);
        placed := placed + 1;
      }
    }
  }

  /** One car for a building: fork a stream for it, search for a spot near
      the building, and seed a random car there if the search finds one. */
  method SeedOneCar(sim: Sim, m: Map, roads: seq<RoadId>, b: BuildingId, open: SpotTable,
                    ghost base: seq<ParkedCar>, ghost counter: nat, ghost first: Rng, rng: Rng)
    returns (got: bool, open': SpotTable, rng': Rng, ghost from: RoadId)
    requires sim.Valid() && StacksSound(m, sim.parked, open) && StacksComplete(m, sim.parked, open)
    requires NoDup(roads) && forall r :: r in open ==> r in roads
    requires SeededBy(m, roads, [b], base, sim.parked)
    // the building's cars so far, seeded from `first`; this attempt takes the
    // next fork, unless the search can no longer find a spot
    requires CarsFor(m, roads, b, counter, first, base, sim.parked)
    requires sim.carCounter == counter + (|sim.parked| - |base|)
    requires rng == first.(pos := first.pos + (|sim.parked| - |base|)) || NoReachableSpot(m, roads, b, open)
    modifies sim
    ensures sim.Valid() && StacksSound(m, sim.parked, open') && StacksComplete(m, sim.parked, open')
    ensures open'.Keys == open.Keys
    // no car: the search found nothing reachable, and nothing changed
    ensures !got ==> open' == open && sim.parked == old(sim.parked) && NoReachableSpot(m, roads, b, open)
    // a car: the top spot of a reachable road's stack, holding a car drawn on the forked stream
    ensures got ==>
      from in open && open[from] != [] && Reachable(m, roads, m.buildingRoad(b), from)
      && open' == open[from := DropLast(open[from])]
      && sim.parked == old(sim.parked) + [ParkedCar(old(sim.carCounter), RandCar(rng.Fork().0).0, Last(open[from]), Some(b))]
    ensures StackTotal(open', roads) + (if got then 1 else 0) == StackTotal(open, roads)
    ensures |sim.parked| == |old(sim.parked)| + (if got then 1 else 0) && SeededBy(m, roads, [b], base, sim.parked)
    ensures sim.carCounter == old(sim.carCounter) + (if got then 1 else 0) && sim.trips == old(sim.trips)
    ensures CarsFor(m, roads, b, counter, first, base, sim.parked)
    ensures rng' == rng.(pos := rng.pos + 1)
  {
    var (forked, next) := rng.Fork();
    rng' := next;
    var spot;
    spot, open', from := FindSpotNearBuilding(m, b, open, roads);
    got := spot.Some?;
    if got {
      ghost var cars := sim.parked;
      ghost var j := |cars| - |base|;
      assert !NoFreeSpot(open, from);
      assert rng == first.(pos := first.pos + j);
      PlacedNext(m, roads, b, counter, first, base, cars, open, from, j);
      ParkAtTop(sim, m, roads, b, open, from, spot.value, base, RandCar(forked).0);
      assert sim.parked == cars + [ParkedCar(counter + j, RandCar(first.(pos := first.pos + j).Fork().0).0, Last(open[from]), Some(b))];
    }
  }

  /** Seed the given car, owned by the building, at the top spot of the
      stack of road r. */
  method ParkAtTop(sim: Sim, m: Map, roads: seq<RoadId>, b: BuildingId, open: SpotTable, ghost r: RoadId,
                   spot: ParkingSpot, ghost base: seq<ParkedCar>, car: VehicleSpec)
    requires sim.Valid() && StacksSound(m, sim.parked, open) && StacksComplete(m, sim.parked, open)
    requires NoDup(roads) && r in open && open[r] != [] && forall x :: x in open ==> x in roads
    requires SeededBy(m, roads, [b], base, sim.parked)
    requires spot == Last(open[r])
    requires car.vehicleType == Car && MIN_CAR_LENGTH <= car.length < MAX_CAR_LENGTH
    modifies sim
    ensures sim.parked == old(sim.parked) + [ParkedCar(old(sim.carCounter), car, spot, Some(b))]
    ensures sim.Valid() && StacksSound(m, sim.parked, open[r := DropLast(open[r])])
    ensures StacksComplete(m, sim.parked, open[r := DropLast(open[r])])
    ensures StackTotal(open[r := DropLast(open[r])], roads) + 1 == StackTotal(open, roads)
    ensures SeededBy(m, roads, [b], base, sim.parked)
    ensures sim.carCounter == old(sim.carCounter) + 1 && sim.trips == old(sim.trips)
  {
    ghost var before := sim.parked;
    assert spot in open[r];
    assert !Occupied(before, spot) && (spot.lane, Parking) in m.Children(r);
    OccupiedPrefix(before, |base|, spot);
    assert before[..|base|] == base;
    sim.SeedParkedCar(car, spot, Some(b));
    PopKeepsSound(m, before, open, r, sim.parked[|before|]);
    PopKeepsComplete(m, before, open, r, sim.parked[|before|]);
    StackTotalPop(open, roads, r);
    assert sim.parked[..|base|] == before[..|base|];
  }

  /** What the run reports: the spots it started with, the cars it placed,
      the cars it found no room for, each building's sampled and placed
      counts, and how many buildings got no car. */
  datatype SeedReport = SeedReport(
    totalSpots: nat, newCars: nat, noRoom: nat,
    requested: seq<nat>, placed: seq<nat>, withoutCars: nat)

  /** The per-building record so far: each building's sampled count has
      positive weight and bounds the cars it got; the placed cars and the cars
      given up on add up to the sampled ones. */
  ghost predicate Tally(dist: WeightedUsizeChoice, requested: seq<nat>, placed: seq<nat>, newCars: nat, noRoom: nat) {
    |requested| == |placed|
    && (forall k :: 0 <= k < |placed| ==> placed[k] <= requested[k] < |dist| && dist[requested[k]] > 0)
    && Sum(placed) == newCars && newCars + noRoom == Sum(requested)
  }

  lemma TallyExtend(dist: WeightedUsizeChoice, requested: seq<nat>, placed: seq<nat>, newCars: nat, noRoom: nat,
                    count: nat, got: nat)
    requires Tally(dist, requested, placed, newCars, noRoom)
    requires got <= count < |dist| && dist[count] > 0
    ensures Tally(dist, requested + [count], placed + [got], newCars + got, noRoom + (count - got))
  {
    assert DropLast(placed + [got]) == placed && DropLast(requested + [count]) == requested;
  }

  /** Each building listed so far got fewer cars than it was sampled only if
      no road reachable from it has a spot left in the table. */
  ghost predicate GaveUpWhenExhausted(m: Map, roads: seq<RoadId>, owners: seq<BuildingId>,
                                      requested: seq<nat>, placed: seq<nat>, open: SpotTable) {
    |placed| <= |owners| && |requested| == |placed|
    && forall k :: 0 <= k < |placed| && placed[k] < requested[k] ==> NoReachableSpot(m, roads, owners[k], open)
  }

  /** The next building's record extends it, as stacks only shrink. */
  lemma GaveUpExtend(m: Map, roads: seq<RoadId>, owners: seq<BuildingId>, requested: seq<nat>, placed: seq<nat>,
                     open: SpotTable, open': SpotTable, count: nat, got: nat)
    requires GaveUpWhenExhausted(m, roads, owners, requested, placed, open) && |placed| < |owners|
    requires forall r :: NoFreeSpot(open, r) ==> NoFreeSpot(open', r)
    requires got < count ==> NoReachableSpot(m, roads, owners[|placed|], open')
    ensures GaveUpWhenExhausted(m, roads, owners, requested + [count], placed + [got], open')
  {
    forall k | 0 <= k < |placed| + 1 && (placed + [got])[k] < (requested + [count])[k]
      ensures NoReachableSpot(m, roads, owners[k], open')
    {
      if k < |placed| {
        assert placed[k] < requested[k] && NoReachableSpot(m, roads, owners[k], open);
      }
    }
  }

  /** At the end, a building short of its sampled count has every
      neighbourhood road reachable from it full. */
  lemma GaveUpMeansFull(m: Map, parked: seq<ParkedCar>, roads: seq<RoadId>, owners: seq<BuildingId>,
                        requested: seq<nat>, placed: seq<nat>, open: SpotTable)
    requires GaveUpWhenExhausted(m, roads, owners, requested, placed, open) && |placed| == |owners|
    requires StacksComplete(m, parked, open) && forall r :: r in roads ==> r in open
    ensures forall k :: 0 <= k < |owners| && placed[k] < requested[k] ==>
      forall r :: r in roads && Reachable(m, roads, m.buildingRoad(owners[k]), r) ==> RoadSpots(m, parked, r) == []
  {
    forall k, r | 0 <= k < |owners| && placed[k] < requested[k] && r in roads && Reachable(m, roads, m.buildingRoad(owners[k]), r)
      ensures RoadSpots(m, parked, r) == []
    {
      assert NoReachableSpot(m, roads, owners[k], open);
      ExhaustedIsFull(m, parked, open, r);
    }
  }

  /** The state of the loop over the owner buildings after the first i:
      the stacks stay sound and complete and only lose the spots now taken,
      the cars seeded so far belong to those buildings, and the record
      of sampled and placed counts is kept. */
  ghost predicate OwnersSoFar(m: Map, roads: seq<RoadId>, owners: seq<BuildingId>, dist: WeightedUsizeChoice,
                              open: SpotTable, base: seq<ParkedCar>, parked: seq<ParkedCar>, i: nat,
                              left: SpotTable, requested: seq<nat>, placed: seq<nat>, newCars: nat, noRoom: nat) {
    i <= |owners|
    && StacksSound(m, parked, left) && StacksComplete(m, parked, left)
    && left.Keys == open.Keys
    && StackTotal(left, roads) + newCars == StackTotal(open, roads)
    && |parked| == |base| + newCars && SeededBy(m, roads, owners[..i], base, parked)
    && |placed| == i && Tally(dist, requested, placed, newCars, noRoom)
    && GaveUpWhenExhausted(m, roads, owners, requested, placed, left)
  }

  /** Where buildings whose sampled counts are `requested` leave the stream:
      each took one draw for its count and one fork for each car it asked for. */
  function StreamAfter(rng: Rng, requested: seq<nat>): Rng {
    rng.(pos := rng.pos + |requested| + Sum(requested))
  }

  /** Each count of `requested` is the weighted draw taken where the
      buildings before it left the stream. */
  ghost predicate DrawnInTurn(rng: Rng, dist: WeightedUsizeChoice, requested: seq<nat>)
    decreases |requested|
  {
    requested == []
    || (DrawnInTurn(rng, dist, DropLast(requested))
        && Last(requested) == Sample(StreamAfter(rng, DropLast(requested)), dist).0)
  }

  /** The next building's count is the draw where the others left the stream. */
  lemma DrawnInTurnExtend(rng: Rng, dist: WeightedUsizeChoice, requested: seq<nat>)
    requires DrawnInTurn(rng, dist, requested)
    ensures var at := StreamAfter(rng, requested);
      var c := Sample(at, dist).0;
      DrawnInTurn(rng, dist, requested + [c]) && StreamAfter(rng, requested + [c]) == at.(pos := at.pos + 1 + c)
  {
    var c := Sample(StreamAfter(rng, requested), dist).0;
    assert DropLast(requested + [c]) == requested;
  }

  /** The cars of `parked` past `base` come in one block per building listed
      so far, in order: building k's block holds its placed[k] cars, numbered
      on from `counter`, each drawn on one of the forks taken after the draw
      of the building's count, and parked on a road reachable from the
      building's road. */
  ghost predicate SeededInTurn(m: Map, roads: seq<RoadId>, owners: seq<BuildingId>, counter: nat, rng: Rng,
                               requested: seq<nat>, placed: seq<nat>, base: seq<ParkedCar>, parked: seq<ParkedCar>)
    decreases |placed|
  {
    |requested| == |placed| <= |owners| && |parked| == |base| + Sum(placed)
    && (placed == [] ==> parked == base)
    && (placed != [] ==>
          SeededInTurn(m, roads, owners, counter, rng, DropLast(requested), DropLast(placed), base,
                       parked[..|parked| - Last(placed)])
          && CarsFor(m, roads, owners[|placed| - 1], counter + (|parked| - Last(placed) - |base|),
                     StreamAfter(rng, DropLast(requested)).Advance(), parked[..|parked| - Last(placed)], parked))
  }

  /** A record whose last block is kept on a record kept for the blocks before it. */
  lemma SeededInTurnFold(m: Map, roads: seq<RoadId>, owners: seq<BuildingId>, counter: nat, rng: Rng,
                         requested: seq<nat>, placed: seq<nat>, base: seq<ParkedCar>, parked: seq<ParkedCar>)
    requires placed != [] && |requested| == |placed| <= |owners| && |parked| == |base| + Sum(placed)
    requires |base| <= |parked| - Last(placed)
    requires SeededInTurn(m, roads, owners, counter, rng, DropLast(requested), DropLast(placed), base,
                          parked[..|parked| - Last(placed)])
    requires CarsFor(m, roads, owners[|placed| - 1], counter + (|parked| - Last(placed) - |base|),
                     StreamAfter(rng, DropLast(requested)).Advance(), parked[..|parked| - Last(placed)], parked)
    ensures SeededInTurn(m, roads, owners, counter, rng, requested, placed, base, parked)
  {
  }

  /** The next building's cars, seeded on the forks after its draw, extend the blocks. */
  lemma {:induction false} SeededInTurnExtend(m: Map, roads: seq<RoadId>, owners: seq<BuildingId>, counter: nat, rng: Rng,
                           requested: seq<nat>, placed: seq<nat>, base: seq<ParkedCar>, parked: seq<ParkedCar>,
                           count: nat, got: nat, parked': seq<ParkedCar>, b: BuildingId, carsFrom: nat, forks: Rng)
    requires SeededInTurn(m, roads, owners, counter, rng, requested, placed, base, parked) && |placed| < |owners|
    requires b == owners[|placed|] && carsFrom == counter + (|parked| - |base|)
    requires forks == StreamAfter(rng, requested).Advance()
    requires CarsFor(m, roads, b, carsFrom, forks, parked, parked')
    requires |parked'| == |parked| + got
    ensures SeededInTurn(m, roads, owners, counter, rng, requested + [count], placed + [got], base, parked')
  {
    var placed', requested' := placed + [got], requested + [count];
    assert DropLast(placed') == placed && Last(placed') == got && Sum(placed') == Sum(placed) + got;
    assert DropLast(requested') == requested;
    assert parked'[..|parked|] == parked;
    SeededInTurnFold(m, roads, owners, counter, rng, requested', placed', base, parked');
  }

  /** Every car the listed buildings were given is numbered in order from
      the counter and owned by one of them, on a road reachable from that
      building's road. */
  lemma {:induction false} SeededInTurnCars(m: Map, roads: seq<RoadId>, owners: seq<BuildingId>, counter: nat, rng: Rng,
                                            requested: seq<nat>, placed: seq<nat>, base: seq<ParkedCar>, parked: seq<ParkedCar>)
    requires SeededInTurn(m, roads, owners, counter, rng, requested, placed, base, parked)
    ensures |base| <= |parked| && parked[..|base|] == base
    ensures forall j :: |base| <= j < |parked| ==>
      parked[j].id == counter + (j - |base|) && parked[j].owner.Some? && parked[j].owner.value in owners
      && Reachable(m, roads, m.buildingRoad(parked[j].owner.value), m.laneParent(parked[j].spot.lane))
    decreases |placed|
  {
    if placed != [] {
      var n := |parked| - Last(placed);
      var init := parked[..n];
      SeededInTurnCars(m, roads, owners, counter, rng, DropLast(requested), DropLast(placed), base, init);
      var b := owners[|placed| - 1];
      forall j | |base| <= j < |parked|
        ensures parked[j].id == counter + (j - |base|) && parked[j].owner.Some? && parked[j].owner.value in owners
          && Reachable(m, roads, m.buildingRoad(parked[j].owner.value), m.laneParent(parked[j].spot.lane))
      {
        if j < n {
          assert parked[j] == init[j];
        } else {
          assert CarFor(m, roads, b, counter + (n - |base|), StreamAfter(rng, DropLast(requested)).Advance(), init, parked, j);
        }
      }
      assert parked[..|base|] == init[..|base|];
    }
  }

  /** The loop over the owner buildings, drawing each one's car count from
      the base stream and seeding that many cars from the stacks. */
  method SeedOwners(sim: Sim, m: Map, carsPerBuilding: WeightedUsizeChoice, owners: seq<BuildingId>,
                    roads: seq<RoadId>, open: SpotTable, rng: Rng)
    returns (requested: seq<nat>, placed: seq<nat>, newCars: nat, noRoom: nat, rng': Rng, ghost open': SpotTable)
    requires sim.Valid() && StacksSound(m, sim.parked, open) && StacksComplete(m, sim.parked, open)
    requires NoDup(roads) && forall r :: r in open <==> r in roads
    modifies sim
    ensures sim.Valid()
    ensures sim.trips == old(sim.trips) && sim.carCounter == old(sim.carCounter) + newCars
    ensures |sim.parked| == |old(sim.parked)| + newCars && SeededBy(m, roads, owners, old(sim.parked), sim.parked)
    ensures newCars <= StackTotal(open, roads)
    ensures |placed| == |owners| && Tally(carsPerBuilding, requested, placed, newCars, noRoom)
    // a building got fewer cars than sampled only if the stacks of the roads reachable from it ran out
    ensures GaveUpWhenExhausted(m, roads, owners, requested, placed, open')
    ensures StacksComplete(m, sim.parked, open') && open'.Keys == open.Keys
    // each building's count is the weighted draw taken where the buildings before it left the stream
    ensures DrawnInTurn(rng, carsPerBuilding, requested)
    ensures rng' == StreamAfter(rng, requested)
    // building k's cars are the next placed[k] cars seeded, each reachable from its road
    ensures SeededInTurn(m, roads, owners, old(sim.carCounter), rng, requested, placed, old(sim.parked), sim.parked)
  {
    var left := open;
    rng' := rng;
    newCars, noRoom := 0, 0;
    requested, placed := [], [];
    assert sim.parked[..|old(sim.parked)|] == old(sim.parked);
    for i := 0 to |owners|
      invariant sim.Valid() && sim.trips == old(sim.trips) && sim.carCounter == old(sim.carCounter) + newCars
      invariant OwnersSoFar(m, roads, owners, carsPerBuilding, open, old(sim.parked), sim.parked, i,
                            left, requested, placed, newCars, noRoom)
      invariant DrawnInTurn(rng, carsPerBuilding, requested)
      invariant rng' == StreamAfter(rng, requested)
      invariant SeededInTurn(m, roads, owners, old(sim.carCounter), rng, requested, placed, old(sim.parked), sim.parked)
    {
      DrawnInTurnExtend(rng, carsPerBuilding, requested);
      left, requested, placed, newCars, noRoom, rng' :=
        SeedNextOwner(sim, m, carsPerBuilding, owners, roads, open, old(sim.parked), old(sim.carCounter), rng, i,
                      left, requested, placed, newCars, noRoom, rng');
    }
    assert owners[..|owners|] == owners;
    open' := left;
  }

  /** What one building's seeding, as SeedBuilding promises it, does to the
      record kept over the buildings before it. */
  lemma {:induction false} NextOwnerKept(m: Map, dist: WeightedUsizeChoice, owners: seq<BuildingId>, roads: seq<RoadId>,
                                         open: SpotTable, base: seq<ParkedCar>, counter: nat, first: Rng, i: nat,
                                         left: SpotTable, requested: seq<nat>, placed: seq<nat>, newCars: nat, noRoom: nat,
                                         count: nat, got: nat, before: seq<ParkedCar>, after: seq<ParkedCar>, left': SpotTable,
                                         carsFrom: nat, forks: Rng)
    requires i < |owners| && OwnersSoFar(m, roads, owners, dist, open, base, before, i, left, requested, placed, newCars, noRoom)
    requires SeededInTurn(m, roads, owners, counter, first, requested, placed, base, before)
    requires count == Sample(StreamAfter(first, requested), dist).0 && got <= count
    requires StacksSound(m, after, left') && StacksComplete(m, after, left') && left'.Keys == left.Keys
    requires got < count ==> NoReachableSpot(m, roads, owners[i], left')
    requires forall r :: NoFreeSpot(left, r) ==> NoFreeSpot(left', r)
    requires StackTotal(left', roads) + got == StackTotal(left, roads)
    requires |after| == |before| + got && SeededBy(m, roads, [owners[i]], before, after)
    requires carsFrom == counter + newCars && forks == StreamAfter(first, requested).Advance()
    requires CarsFor(m, roads, owners[i], carsFrom, forks, before, after)
    ensures OwnersSoFar(m, roads, owners, dist, open, base, after, i + 1, left', requested + [count], placed + [got],
                        newCars + got, noRoom + (count - got))
    ensures SeededInTurn(m, roads, owners, counter, first, requested + [count], placed + [got], base, after)
  {
    assert |placed| == i && |before| == |base| + newCars;
    SeededInTurnExtend(m, roads, owners, counter, first, requested, placed, base, before, count, got, after,
                       owners[i], carsFrom, forks);
    SeededByTrans(m, roads, owners[..i], owners[i], base, before, after);
    TakeOneMore(owners, i);
    TallyExtend(dist, requested, placed, newCars, noRoom, count, got);
    GaveUpExtend(m, roads, owners, requested, placed, left, left', count, got);
  }

  /** One turn of the loop over the owners: building i's count is the next
      draw from the base stream, and its cars are seeded from the stacks. */
  method SeedNextOwner(sim: Sim, m: Map, dist: WeightedUsizeChoice, owners: seq<BuildingId>, roads: seq<RoadId>,
                       open: SpotTable, ghost base: seq<ParkedCar>, ghost counter: nat, ghost first: Rng, i: nat,
                       left: SpotTable, requested: seq<nat>, placed: seq<nat>, newCars: nat, noRoom: nat, rng: Rng)
    returns (left': SpotTable, requested': seq<nat>, placed': seq<nat>, newCars': nat, noRoom': nat, rng': Rng)
    requires sim.Valid() && i < |owners| && NoDup(roads) && forall r :: r in open <==> r in roads
    requires OwnersSoFar(m, roads, owners, dist, open, base, sim.parked, i, left, requested, placed, newCars, noRoom)
    // the blocks of the buildings before i, seeded from `first` and the counter
    requires SeededInTurn(m, roads, owners, counter, first, requested, placed, base, sim.parked)
    requires sim.carCounter == counter + newCars && rng == StreamAfter(first, requested)
    modifies sim
    ensures sim.Valid() && sim.trips == old(sim.trips) && sim.carCounter == old(sim.carCounter) + (newCars' - newCars)
    ensures OwnersSoFar(m, roads, owners, dist, open, base, sim.parked, i + 1, left', requested', placed', newCars', noRoom')
    // the building's count is the next weighted draw; its cars then take one fork each
    ensures requested' == requested + [Sample(rng, dist).0]
    ensures rng' == rng.(pos := rng.pos + 1 + Sample(rng, dist).0)
    ensures SeededInTurn(m, roads, owners, counter, first, requested', placed', base, sim.parked)
  {
    var (count, next) := Sample(rng, dist);
    ghost var before := sim.parked;
    var got;
    ghost var carsFrom := sim.carCounter;
    got, left', rng' := SeedBuilding(sim, m, roads, owners[i], count, left, next);
    NextOwnerKept(m, dist, owners, roads, open, base, counter, first, i, left, requested, placed, newCars, noRoom,
                  count, got, before, sim.parked, left', carsFrom, next);
    requested', placed' := requested + [count], placed + [got];
    newCars', noRoom' := newCars + got, noRoom + (count - got);
  }

  /** What seed_parked_cars does for one neighbourhood, with `owners` its
      buildings and `roads` its roads, starting from the parked cars
      `before`, the car counter `counter` and the stream `rng`: the parked
      cars `after`, the closing note `report` and the stream `rng'` it
      leaves. */
  ghost predicate SeedsParkedCars(m: Map, dist: WeightedUsizeChoice, owners: seq<BuildingId>, roads: seq<RoadId>,
                                  rng: Rng, counter: nat, before: seq<ParkedCar>, after: seq<ParkedCar>,
                                  report: SeedReport, rng': Rng) {
    // the count of free spots is taken before any car is seeded
    report.totalSpots == TotalFreeSpots(m, before, roads)
    && report.newCars <= report.totalSpots
    && |after| == |before| + report.newCars && SeededBy(m, roads, owners, before, after)
    && |report.placed| == |owners|
    && Tally(dist, report.requested, report.placed, report.newCars, report.noRoom)
    // a building got fewer cars than sampled only if every road reachable from it is now full
    && (forall k :: 0 <= k < |owners| && report.placed[k] < report.requested[k] ==>
          forall r :: r in roads && Reachable(m, roads, m.buildingRoad(owners[k]), r) ==> RoadSpots(m, after, r) == [])
    && report.withoutCars == BuildingsWithoutCars(report.placed)
    // the stream: one fork per road for the shuffles, then for each building
    // one draw for its count and one fork per car it asked for
    && DrawnInTurn(rng.(pos := rng.pos + |roads|), dist, report.requested)
    && rng' == StreamAfter(rng.(pos := rng.pos + |roads|), report.requested)
    // the new cars come in one block per building, in the order of `owners`
    && SeededInTurn(m, roads, owners, counter, rng.(pos := rng.pos + |roads|), report.requested, report.placed,
                    before, after)
  }

  /** seed_parked_cars */
  method SeedParkedCars(sim: Sim, m: Map, carsPerBuilding: WeightedUsizeChoice,
                        owners: seq<BuildingId>, roads: seq<RoadId>, rng: Rng)
    returns (report: SeedReport, rng': Rng)
    requires sim.Valid()
    requires NoDup(roads)
    requires forall r :: r in roads ==> m.LanesBelongTo(r)
    modifies sim
    ensures sim.Valid()
    ensures sim.trips == old(sim.trips) && sim.carCounter == old(sim.carCounter) + report.newCars
    ensures SeedsParkedCars(m, carsPerBuilding, owners, roads, rng, old(sim.carCounter), old(sim.parked), sim.parked,
                            report, rng')
  {
    var open, total, rng1 := BuildSpotTable(sim, m, roads, rng);
    TableComplete(m, sim.parked, roads, open, total);
    var requested, placed, newCars, noRoom;
    ghost var final;
    requested, placed, newCars, noRoom, rng', final := SeedOwners(sim, m, carsPerBuilding, owners, roads, open, rng1);
    GaveUpMeansFull(m, sim.parked, roads, owners, requested, placed, final);
    report := SeedReport(total, newCars, noRoom, requested, placed, BuildingsWithoutCars(placed));
  }

  // ---------------------------------------------------------------------
  // The closing note's count of buildings left without cars

  /** The buildings that received no car. */
  function BuildingsWithoutCars(placed: seq<nat>): (r: nat)
    ensures r <= |placed|
    ensures r == 0 <==> forall i :: 0 <= i < |placed| ==> placed[i] > 0
    ensures r == |placed| <==> forall i :: 0 <= i < |placed| ==> placed[i] == 0
  {
    if placed == [] then 0
    else
      assert placed == DropLast(placed) + [Last(placed)];
      BuildingsWithoutCars(DropLast(placed)) + (if Last(placed) == 0 then 1 else 0)
  }

  /** The count as the source computes it: the number of buildings less the
      number of cars, in unsigned arithmetic; None is the underflow. */
  function BuildingsWithoutCarsAsWritten(numBuildings: nat, newCars: nat): (r: Option<nat>)
    ensures r.None? <==> newCars > numBuildings
    ensures r.Some? ==> r.value + newCars == numBuildings
  {
    if newCars <= numBuildings then Some(numBuildings - newCars) else None
  }

  /** One building given two cars: the subtraction underflows. */
  lemma AsWrittenUnderflows()
    ensures BuildingsWithoutCarsAsWritten(1, Sum([2])) == None
    ensures BuildingsWithoutCars([2]) == 0
  {
    assert Sum([2]) == 2 by { assert DropLast([2]) == []; }
    assert DropLast([2]) == [];
  }

  /** Two buildings, one given two cars: the count says none is left without,
      but one is. */
  lemma AsWrittenMiscounts()
    ensures BuildingsWithoutCarsAsWritten(2, Sum([2, 0])) == Some(0)
    ensures BuildingsWithoutCars([2, 0]) == 1
  {
    assert DropLast([2, 0]) == [2] && DropLast([2]) == [];
  }

  /** When no building gets more than one car, the source's count is right. */
  lemma {:induction false} AsWrittenAgreesAtMostOneEach(placed: seq<nat>)
    requires forall i :: 0 <= i < |placed| ==> placed[i] <= 1
    ensures BuildingsWithoutCarsAsWritten(|placed|, Sum(placed)) == Some(BuildingsWithoutCars(placed))
  {
    if placed != [] {
      AsWrittenAgreesAtMostOneEach(DropLast(placed));
    }
  }
}
