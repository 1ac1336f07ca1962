/** The simulation orchestrator of sim.rs: the clock, the vehicle-id counter,
    the debugged car, and the three movement subsystems it drives (driving,
    parking, walking), each reduced to what the orchestrator reads and writes
    of it. */
module Orchestrator {
  import opened Common
  import opened Oracle
  import opened MapModel

  datatype CarState = Moving | Stuck | Parked

  /** Where a driving car is: on a lane or in a turn. */
  datatype On = OnLane(lane: LaneId) | OnTurn(turn: TurnId)

  /** A car the driving subsystem moves: where it is, what it is waiting to
      enter (None while it is free to move) and whether it is being debugged. */
  datatype DrivingCar = DrivingCar(on: On, waitingFor: Option<On>, debug: bool)

  datatype Turn = Turn(id: TurnId, betweenSidewalks: bool)

  datatype Subsystem = DrivingSystem | ParkingSystem | WalkingSystem

  /** The subsystem that tracks lanes of a type; nothing tracks bike lanes. */
  function LaneHandler(t: LaneType): Option<Subsystem> {
    match t
    case Driving => Some(DrivingSystem)
    case Parking => Some(ParkingSystem)
    case Sidewalk => Some(WalkingSystem)
    case Biking => None
  }

  /** The subsystem that owns a turn: walking for crossings, driving otherwise. */
  function TurnHandler(t: Turn): Subsystem {
    if t.betweenSidewalks then WalkingSystem else DrivingSystem
  }

  /** What the orchestrator calls but this model does not see: finding a goal
      and a path for a new pedestrian (pick_goal_and_find_path), the driving
      subsystem's attempt to put a parked car on a driving lane at a given
      time (start_car_on_lane), and the parking subsystem's roll over its free
      spots (seed_random_cars), giving one parking lane per car to seed.  All
      consume the random stream. */
  datatype Externals = Externals(
    findPath: (Rng, LaneId) -> (Option<seq<LaneId>>, Rng),
    startCar: (Rng, nat, LaneId, CarId) -> (bool, Rng),
    rollSpots: (Rng, Chance) -> (seq<LaneId>, Rng))

  // ---------------------------------------------------------------------
  // The parking subsystem's cars

  /** Every car parked on some tracked parking lane. */
  ghost function ParkedIds(parkedOn: map<LaneId, seq<CarId>>): set<CarId> {
    set l, i | l in parkedOn && 0 <= i < |parkedOn[l]| :: parkedOn[l][i]
  }

  /** get_last_parked_car finds a car. */
  predicate HasParkedCar(parkedOn: map<LaneId, seq<CarId>>, l: LaneId) {
    l in parkedOn && parkedOn[l] != []
  }

  /** Removing the last car of a lane removes exactly that car (and nothing
      parked elsewhere is lost). */
  lemma ParkedIdsPop(p: map<LaneId, seq<CarId>>, l: LaneId)
    requires HasParkedCar(p, l)
    ensures ParkedIds(p) == ParkedIds(p[l := DropLast(p[l])]) + {Last(p[l])}
  {
    var q := p[l := DropLast(p[l])];
    forall c | c in ParkedIds(p)
      ensures c in ParkedIds(q) + {Last(p[l])}
    {
      var l', i :| l' in p && 0 <= i < |p[l']| && p[l'][i] == c;
      if l' != l {
        assert q[l'][i] == c;
      } else if i < |p[l]| - 1 {
        assert q[l][i] == c;
      }
    }
    forall c | c in ParkedIds(q)
      ensures c in ParkedIds(p)
    {
      var l', i :| l' in q && 0 <= i < |q[l']| && q[l'][i] == c;
      assert p[l'][i] == c;
    }
    assert p[l][|p[l]| - 1] == Last(p[l]);
  }

  /** Parking one more car on a tracked lane adds exactly that car. */
  lemma ParkedIdsPush(p: map<LaneId, seq<CarId>>, l: LaneId, c: CarId)
    requires l in p
    ensures ParkedIds(p[l := p[l] + [c]]) == ParkedIds(p) + {c}
  {
    var q := p[l := p[l] + [c]];
    forall x | x in ParkedIds(q)
      ensures x in ParkedIds(p) + {c}
    {
      var l', i :| l' in q && 0 <= i < |q[l']| && q[l'][i] == x;
      if l' != l || i < |p[l]| {
        assert p[l'][i] == x;
      }
    }
    forall x | x in ParkedIds(p)
      ensures x in ParkedIds(q)
    {
      var l', i :| l' in p && 0 <= i < |p[l']| && p[l'][i] == x;
      assert q[l'][i] == x;
    }
    assert q[l][|p[l]|] == c;
  }

  /** Dropping lanes, or emptying them, parks no new car. */
  lemma ParkedIdsShrink(p: map<LaneId, seq<CarId>>, q: map<LaneId, seq<CarId>>)
    requires forall l :: l in q ==> q[l] == [] || (l in p && q[l] == p[l])
    ensures ParkedIds(q) <= ParkedIds(p)
  {
    forall x | x in ParkedIds(q)
      ensures x in ParkedIds(p)
    {
      var l, i :| l in q && 0 <= i < |q[l]| && q[l][i] == x;
      assert p[l][i] == x;
    }
  }

  /** The ids handed out while the counter went from a to b. */
  function IdsBetween(a: nat, b: nat): (r: set<CarId>)
    ensures forall c :: c in r <==> a <= c < b
    decreases b
  {
    if b <= a then {} else IdsBetween(a, b - 1) + {b - 1}
  }

  lemma IdsBetweenExtend(a: nat, b: nat)
    requires a <= b
    ensures IdsBetween(a, b + 1) == IdsBetween(a, b) + {b}
  {
  }

  /** Ids all below n are at most n in number. */
  lemma {:induction false} BoundedIdsCount(s: set<nat>, n: nat)
    requires forall x :: x in s ==> x < n
    ensures |s| <= n
  {
    if n > 0 {
      var s' := s - {n - 1};
      BoundedIdsCount(s', n - 1);
      assert s <= s' + {n - 1};
    } else {
      assert s == {};
    }
  }

  // ---------------------------------------------------------------------
  // seed_parked_cars

  /** The ids of the cars a fill list parks on lane l: entry k of the list
      is the car numbered first + k. */
  function FilledOn(fill: seq<LaneId>, l: LaneId, first: nat): (r: seq<CarId>)
    ensures forall k :: 0 <= k < |r| ==> first <= r[k] < first + |fill| && fill[r[k] - first] == l
  {
    if fill == [] then []
    else
      FilledOn(DropLast(fill), l, first) + (if Last(fill) == l then [first + |fill| - 1] else [])
  }

  /** One more entry of the fill list adds its car to its own lane only. */
  lemma FilledOnStep(fill: seq<LaneId>, i: nat, l: LaneId, first: nat)
    requires i < |fill|
    ensures FilledOn(fill[..i + 1], l, first) == FilledOn(fill[..i], l, first) + (if fill[i] == l then [first + i] else [])
  {
    assert DropLast(fill[..i + 1]) == fill[..i] && Last(fill[..i + 1]) == fill[i];
  }

  /** The lanes of `now` are those of `orig`, each with the cars the fill
      list, numbered from first, parks on it added at its end. */
  ghost predicate Filled(orig: map<LaneId, seq<CarId>>, now: map<LaneId, seq<CarId>>, fill: seq<LaneId>, first: nat) {
    now.Keys == orig.Keys && forall l :: l in now ==> now[l] == orig[l] + FilledOn(fill, l, first)
  }

  /** Parking the car of entry i of the fill list extends every lane's
      record of new cars by one list entry. */
  lemma FillOneMore(orig: map<LaneId, seq<CarId>>, before: map<LaneId, seq<CarId>>, after: map<LaneId, seq<CarId>>,
                    fill: seq<LaneId>, i: nat, first: nat)
    requires i < |fill| && fill[i] in before
    requires Filled(orig, before, fill[..i], first)
    requires after == before[fill[i] := before[fill[i]] + [first + i]]
    ensures Filled(orig, after, fill[..i + 1], first)
  {
    forall l | l in after
      ensures after[l] == orig[l] + FilledOn(fill[..i + 1], l, first)
    {
      FilledOnStep(fill, i, l, first);
    }
  }

  // ---------------------------------------------------------------------
  // start_agent's lane pairing

  /** The (driving lane, parking lane) pair a car is started from: a driving
      lane pairs with its road's parking lane, a parking lane with its road's
      driving lane; sidewalks, bike lanes and lanes without a partner have none. */
  function LanePair(m: Map, id: LaneId): (r: Option<(LaneId, LaneId)>)
    ensures r.Some? <==>
      (m.laneType(id) == Driving && m.findParkingLane(id).Some?)
      || (m.laneType(id) == Parking && m.findDrivingLane(id).Some?)
    ensures r.Some? && m.laneType(id) == Driving ==> r.value == (id, m.findParkingLane(id).value)
    ensures r.Some? && m.laneType(id) == Parking ==> r.value == (m.findDrivingLane(id).value, id)
  {
    match m.laneType(id)
    case Driving =>
      (match m.findParkingLane(id)
       case Some(parking) => Some((id, parking))
       case None => None)
    case Parking =>
      (match m.findDrivingLane(id)
       case Some(driving) => Some((driving, id))
       case None => None)
    case Sidewalk => None
    case Biking => None
  }

  /** Lane id pairs with parking lane l. */
  predicate PairsWith(m: Map, id: LaneId, l: LaneId) {
    LanePair(m, id).Some? && LanePair(m, id).value.1 == l
  }

  /** How many of the lanes pair with parking lane l. */
  function PairedWith(m: Map, lanes: seq<LaneId>, l: LaneId): nat {
    if lanes == [] then 0
    else PairedWith(m, DropLast(lanes), l) + (if PairsWith(m, Last(lanes), l) then 1 else 0)
  }

  // ---------------------------------------------------------------------
  // start_agent and start_many_parked_cars on the agents' state

  /** The part of the orchestrator's state that starting agents changes. */
  datatype Agents = Agents(rng: Rng, driving: DrivingState, parking: ParkingState, walking: WalkingState)

  /** Every car, driving or parked. */
  ghost function AgentCars(a: Agents): set<CarId> {
    a.driving.cars.Keys + ParkedIds(a.parking.parkedOn)
  }

  /** The subsystems track the same lanes and turns. */
  predicate SameTracks(a: Agents, b: Agents) {
    b.driving.lanes == a.driving.lanes && b.driving.turns == a.driving.turns
    && b.walking.lanes == a.walking.lanes && b.walking.turns == a.walking.turns
    && b.parking.parkedOn.Keys == a.parking.parkedOn.Keys
  }

  /** No debug flag is raised: a flagged car in b was driving and flagged in a. */
  ghost predicate FlagsKept(a: Agents, b: Agents) {
    forall c :: c in b.driving.cars && b.driving.cars[c].debug ==> c in a.driving.cars && a.driving.cars[c].debug
  }

  /** The car-starting half of start_agent: the last car parked on
      parkingLane is offered to the driving subsystem on drivingLane, and
      leaves the parking lane only if the driving subsystem starts it; the
      result is whether such a car existed. */
  function StartFromPair(drivingLane: LaneId, parkingLane: LaneId, ext: Externals, time: nat, a: Agents): (r: (bool, Agents))
    ensures r.0 <==> HasParkedCar(a.parking.parkedOn, parkingLane)
    // the stream is the one the driving subsystem hands back, if it was asked
    ensures r.1.rng == if r.0 then ext.startCar(a.rng, time, drivingLane, Last(a.parking.parkedOn[parkingLane])).1 else a.rng
    ensures r.1.walking == a.walking && SameTracks(a, r.1) && FlagsKept(a, r.1)
    ensures AgentCars(r.1) == AgentCars(a)
    ensures r.0 && ext.startCar(a.rng, time, drivingLane, Last(a.parking.parkedOn[parkingLane])).0 ==>
      var car := Last(a.parking.parkedOn[parkingLane]);
      r.1.parking.parkedOn == a.parking.parkedOn[parkingLane := DropLast(a.parking.parkedOn[parkingLane])]
      && r.1.driving.cars == a.driving.cars[car := DrivingCar(OnLane(drivingLane), None, false)]
    ensures !(r.0 && ext.startCar(a.rng, time, drivingLane, Last(a.parking.parkedOn[parkingLane])).0) ==>
      r.1.parking == a.parking && r.1.driving == a.driving
  {
    if !HasParkedCar(a.parking.parkedOn, parkingLane) then (false, a)
    else
      var car := Last(a.parking.parkedOn[parkingLane]);
      var (ok, rng') := ext.startCar(a.rng, time, drivingLane, car);
      if ok then
        ParkedIdsPop(a.parking.parkedOn, parkingLane);
        (true, Agents(rng',
                      a.driving.(cars := a.driving.cars[car := DrivingCar(OnLane(drivingLane), None, false)]),
                      a.parking.(parkedOn := a.parking.parkedOn[parkingLane := DropLast(a.parking.parkedOn[parkingLane])]),
                      a.walking))
      else (true, a.(rng := rng'))
  }

  /** start_agent from lane id at the given time: a sidewalk spawns a
      pedestrian if a path is found; a driving or parking lane starts a car
      from its pair; a bike lane or an unpaired lane does nothing. */
  function StartOne(m: Map, id: LaneId, ext: Externals, time: nat, a: Agents): (r: (bool, Agents))
    ensures m.laneType(id) == Sidewalk ==>
      (r.0 <==> ext.findPath(a.rng, id).0.Some?) && r.1.rng == ext.findPath(a.rng, id).1
      && r.1.driving == a.driving && r.1.parking == a.parking
      && r.1.walking.peds == a.walking.peds + (if r.0 then [ext.findPath(a.rng, id).0.value] else [])
    ensures m.laneType(id) != Sidewalk ==>
      r.1.walking == a.walking
      && (r.0 <==> LanePair(m, id).Some? && HasParkedCar(a.parking.parkedOn, LanePair(m, id).value.1))
    ensures m.laneType(id) != Sidewalk && LanePair(m, id).Some? ==>
      r == StartFromPair(LanePair(m, id).value.0, LanePair(m, id).value.1, ext, time, a)
    ensures LanePair(m, id).None? && m.laneType(id) != Sidewalk ==> r.1 == a
    ensures SameTracks(a, r.1) && FlagsKept(a, r.1) && AgentCars(r.1) == AgentCars(a)
  {
    match m.laneType(id)
    case Sidewalk =>
      var (path, rng') := ext.findPath(a.rng, id);
      if path.Some? then (true, a.(rng := rng', walking := a.walking.(peds := a.walking.peds + [path.value])))
      else (false, a.(rng := rng'))
    case _ =>
      match LanePair(m, id)
      case None => (false, a)
      case Some(pair) => StartFromPair(pair.0, pair.1, ext, time, a)
  }

  /** start_agent on each lane in turn, counting the reported successes. */
  function StartAll(m: Map, lanes: seq<LaneId>, ext: Externals, time: nat, a: Agents): (r: (nat, Agents))
    ensures r.0 <= |lanes|
    ensures r.1.parking.parkedOn.Keys == a.parking.parkedOn.Keys
  {
    if lanes == [] then (0, a)
    else
      var (n, b) := StartAll(m, DropLast(lanes), ext, time, a);
      var (ok, c) := StartOne(m, Last(lanes), ext, time, b);
      (n + (if ok then 1 else 0), c)
  }

  /** Starting from one more lane is one more start_agent after the others. */
  lemma StartAllStep(m: Map, lanes: seq<LaneId>, i: nat, ext: Externals, time: nat, a: Agents)
    requires i < |lanes|
    ensures var prev := StartAll(m, lanes[..i], ext, time, a);
      var next := StartOne(m, lanes[i], ext, time, prev.1);
      StartAll(m, lanes[..i + 1], ext, time, a) == (prev.0 + (if next.0 then 1 else 0), next.1)
  {
    assert DropLast(lanes[..i + 1]) == lanes[..i] && Last(lanes[..i + 1]) == lanes[i];
  }

  /** A parking lane is untouched by start_agent, or loses its last car to a
      start from a lane paired with it. */
  lemma StartOneLane(m: Map, id: LaneId, ext: Externals, time: nat, a: Agents, l: LaneId)
    requires l in a.parking.parkedOn
    ensures var r := StartOne(m, id, ext, time, a).1;
      r.parking.parkedOn[l] == a.parking.parkedOn[l]
      || (PairsWith(m, id, l) && a.parking.parkedOn[l] != []
          && r.parking.parkedOn[l] == DropLast(a.parking.parkedOn[l]))
  {
  }

  /** Starting agents from a list of lanes moves cars between parking and
      driving only: no car appears or vanishes, no lane or turn changes
      hands, and no debug flag is raised. */
  lemma {:induction false} StartAllConserves(m: Map, lanes: seq<LaneId>, ext: Externals, time: nat, a: Agents)
    ensures var r := StartAll(m, lanes, ext, time, a).1;
      AgentCars(r) == AgentCars(a) && SameTracks(a, r) && FlagsKept(a, r)
  {
    if lanes != [] {
      StartAllConserves(m, DropLast(lanes), ext, time, a);
    }
  }

  /** Each parking lane only loses cars from its end, and at most one per
      listed lane paired with it. */
  lemma {:induction false} StartAllLane(m: Map, lanes: seq<LaneId>, ext: Externals, time: nat, a: Agents, l: LaneId)
    requires l in a.parking.parkedOn
    ensures var after, before := StartAll(m, lanes, ext, time, a).1.parking.parkedOn[l], a.parking.parkedOn[l];
      |after| <= |before| <= |after| + PairedWith(m, lanes, l) && after == before[..|after|]
  {
    if lanes != [] {
      var front := DropLast(lanes);
      StartAllLane(m, front, ext, time, a, l);
      StartAllConserves(m, front, ext, time, a);
      var b := StartAll(m, front, ext, time, a).1;
      StartOneLane(m, Last(lanes), ext, time, b, l);
      var x, y, z := a.parking.parkedOn[l], b.parking.parkedOn[l], StartOne(m, Last(lanes), ext, time, b).1.parking.parkedOn[l];
      if z != y {
        assert z == DropLast(y) == x[..|z|];
      }
    }
  }

  /** Without a sidewalk among the lanes, no pedestrian appears. */
  lemma {:induction false} StartAllNoPedestrian(m: Map, lanes: seq<LaneId>, ext: Externals, time: nat, a: Agents)
    requires forall i :: 0 <= i < |lanes| ==> m.laneType(lanes[i]) != Sidewalk
    ensures StartAll(m, lanes, ext, time, a).1.walking == a.walking
  {
    if lanes != [] {
      var front := DropLast(lanes);
      assert forall i :: 0 <= i < |front| ==> front[i] == lanes[i];
      StartAllNoPedestrian(m, front, ext, time, a);
      assert m.laneType(lanes[|lanes| - 1]) != Sidewalk;
    }
  }

  // ---------------------------------------------------------------------
  // choose_different

  /** The element `choose` draws from choices at the k-th try. */
  function DrawnAt<T>(rng: Rng, choices: seq<T>, k: nat): T
    requires |choices| > 0
  {
    choices[ChooseIndex(rng.(pos := rng.pos + k), |choices|).0]
  }

  /** choose_different: draw from choices until the draw differs from except.
      The source retries without bound; `fuel` bounds the tries, and None
      means every one of them drew except. */
  method ChooseDifferent<T(==)>(rng: Rng, choices: seq<T>, except: T, fuel: nat) returns (r: Option<T>, rng': Rng)
    requires |choices| > 1
    ensures r.Some? ==> r.value in choices && r.value != except
    ensures r.Some? ==>
      exists k :: 0 <= k < fuel && r.value == DrawnAt(rng, choices, k) && rng' == rng.(pos := rng.pos + k + 1)
        && forall j :: 0 <= j < k ==> DrawnAt(rng, choices, j) == except
    ensures r.None? <==> forall k :: 0 <= k < fuel ==> DrawnAt(rng, choices, k) == except
    // every try takes one draw of the same stream
    ensures r.None? ==> rng' == rng.(pos := rng.pos + fuel)
  {
    var k := 0;
    while k < fuel
      invariant 0 <= k <= fuel
      invariant forall j :: 0 <= j < k ==> DrawnAt(rng, choices, j) == except
    {
      var (i, next) := ChooseIndex(rng.(pos := rng.pos + k), |choices|);
      var choice := choices[i];
      if choice != except {
        assert choice == DrawnAt(rng, choices, k);
        return Some(choice), next;
      }
      k := k + 1;
    }
    return None, rng.(pos := rng.pos + fuel);
  }


  // ---------------------------------------------------------------------
  // The movement subsystems, as the orchestrator sees them

  /** DrivingSimState: the cars it moves, and its lanes and turns. */
  datatype DrivingState = DrivingState(cars: map<CarId, DrivingCar>, lanes: set<LaneId>, turns: set<TurnId>) {
    /** get_empty_lanes, as a condition: no car is on the lane. */
    predicate EmptyLane(l: LaneId) {
      forall c :: c in cars ==> cars[c].on != OnLane(l)
    }
  }

  /** ParkingSimState: its lanes, each with its parked cars in spot order. */
  datatype ParkingState = ParkingState(parkedOn: map<LaneId, seq<CarId>>)

  /** WalkingSimState: its lanes and turns, and each pedestrian's path. */
  datatype WalkingState = WalkingState(lanes: set<LaneId>, turns: set<TurnId>, peds: seq<seq<LaneId>>)

  /** What the driving subsystem's step may do to its cars: move or retire
      them, never adding one or raising a debug flag. */
  ghost predicate StepAllowed(cars: map<CarId, DrivingCar>, driven: map<CarId, DrivingCar>) {
    driven.Keys <= cars.Keys && forall c :: c in driven && driven[c].debug ==> cars[c].debug
  }

  /** toggle_debug as written, on the debugged car and the driving cars:
      both lookups are unwrapped, and None stands for that panic. */
  function ToggleDebugAsWritten(debug: Option<CarId>, cars: map<CarId, DrivingCar>, car: CarId)
    : (r: Option<map<CarId, DrivingCar>>)
    ensures r.None? <==> car !in cars || (debug.Some? && debug.value != car && debug.value !in cars)
    ensures r.Some? ==> car in r.value && r.value[car].debug == !cars[car].debug
  {
    if debug.Some? && debug.value != car && debug.value !in cars then None
    else if car !in cars then None
    else
      var cleared := if debug.Some? && debug.value != car then cars[debug.value := cars[debug.value].(debug := false)] else cars;
      Some(cleared[car := cleared[car].(debug := !cleared[car].debug)])
  }

  /** A step may retire the debugged car while `debug` still names it; toggling
      debugging on another driving car then panics in the source. */
  lemma ToggleDebugAfterStepPanics(l: LaneId)
    ensures var cars := map[0 := DrivingCar(OnLane(l), None, true), 1 := DrivingCar(OnLane(l), None, false)];
      var driven := map[1 := DrivingCar(OnLane(l), None, false)];
      (forall c :: c in cars && cars[c].debug ==> c == 0) && StepAllowed(cars, driven)
      && 1 in driven && ToggleDebugAsWritten(Some(0), driven, 1).None?
  {
    var driven := map[1 := DrivingCar(OnLane(l), None, false)];
    assert 0 !in driven;
  }

  // ---------------------------------------------------------------------
  // The orchestrator

  class Sim {
    var rng: Rng
    var time: nat
    var carIdCounter: nat
    var debug: Option<CarId>
    var driving: DrivingState
    var parking: ParkingState
    var walking: WalkingState

    /** Every car, driving or parked. */
    ghost function KnownCars(): set<CarId>
      reads this
    {
      driving.cars.Keys + ParkedIds(parking.parkedOn)
    }

    /** Every car id came from the counter, and only the debugged car has its
        debug flag raised. */
    ghost predicate Valid()
      reads this
    {
      (forall c :: c in KnownCars() ==> c < carIdCounter)
      && (forall c :: c in driving.cars && driving.cars[c].debug ==> debug == Some(c))
    }

    /** The part of the state that starting agents changes. */
    function State(): Agents
      reads this
    {
      Agents(rng, driving, parking, walking)
    }

    ghost function LanesOf(k: Subsystem): set<LaneId>
      reads this
    {
      match k
      case DrivingSystem => driving.lanes
      case ParkingSystem => parking.parkedOn.Keys
      case WalkingSystem => walking.lanes
    }

    ghost function TurnsOf(k: Subsystem): set<TurnId>
      reads this
    {
      match k
      case DrivingSystem => driving.turns
      case ParkingSystem => {}
      case WalkingSystem => walking.turns
    }

    /** Lane l is tracked by exactly the subsystem that handles lanes of type t. */
    ghost predicate TrackedAs(l: LaneId, t: LaneType)
      reads this
    {
      forall k :: l in LanesOf(k) <==> LaneHandler(t) == Some(k)
    }

    /** Lane l is tracked as the map says: by its type's subsystem if it is
        one of the map's lanes, by none otherwise. */
    ghost predicate Tracks(m: Map, lanes: set<LaneId>, l: LaneId)
      reads this
    {
      forall k :: l in LanesOf(k) <==> l in lanes && LaneHandler(m.laneType(l)) == Some(k)
    }

    ghost predicate TracksAll(m: Map, lanes: set<LaneId>)
      reads this
    {
      forall l :: Tracks(m, lanes, l)
    }

    ghost predicate TracksAllBut(m: Map, lanes: set<LaneId>, id: LaneId)
      reads this
    {
      forall l :: l != id ==> Tracks(m, lanes, l)
    }

    /** new: time zero, no vehicle ids handed out, nothing debugged; the
        driving and parking subsystems track the map's lanes and turns of
        their kind, while the walking subsystem is built without the map and
        starts tracking nothing. */
    constructor (m: Map, lanes: set<LaneId>, turns: set<Turn>, rng: Rng)
      ensures Valid()
      ensures forall l, k :: k != WalkingSystem ==>
        (l in LanesOf(k) <==> l in lanes && LaneHandler(m.laneType(l)) == Some(k))
      ensures TurnsOf(DrivingSystem) == set t | t in turns && !t.betweenSidewalks :: t.id
      ensures LanesOf(WalkingSystem) == {} && TurnsOf(WalkingSystem) == {}
      ensures time == 0 && carIdCounter == 0 && debug == None
      ensures driving.cars == map[] && walking.peds == []
      ensures forall l :: l in parking.parkedOn ==> parking.parkedOn[l] == []
      ensures this.rng == rng
    {
      this.rng := rng;
      time := 0;
      carIdCounter := 0;
      debug := None;
      driving := DrivingState(map[], set l | l in lanes && m.laneType(l) == Driving,
                              set t | t in turns && !t.betweenSidewalks :: t.id);
      parking := ParkingState(map l | l in lanes && m.laneType(l) == Parking :: []);
      walking := WalkingState({}, {}, []);
      new;
      assert ParkedIds(parking.parkedOn) == {};
      forall l, k | k != WalkingSystem
        ensures l in LanesOf(k) <==> l in lanes && LaneHandler(m.laneType(l)) == Some(k)
      {
        match k
        case DrivingSystem =>
        case ParkingSystem =>
      }
    }

    /** edit_lane_type: the map has already changed lane id's type; the lane
        leaves the subsystem of its old type and joins that of its new type
        (a parking lane joins empty).  Bike lanes involve no subsystem. */
    method EditLaneType(m: Map, id: LaneId, oldType: LaneType, ghost lanes: set<LaneId>)
      requires Valid()
      modifies this
      ensures Valid()
      ensures forall k :: id in LanesOf(k) <==>
        LaneHandler(m.laneType(id)) == Some(k) || (LaneHandler(oldType) != Some(k) && old(id in LanesOf(k)))
      ensures forall k :: LanesOf(k) - {id} == old(LanesOf(k)) - {id}
      ensures forall l :: l in parking.parkedOn && l != id ==>
        l in old(parking.parkedOn) && parking.parkedOn[l] == old(parking.parkedOn[l])
      ensures m.laneType(id) == Parking ==> id in parking.parkedOn && parking.parkedOn[id] == []
      // if the subsystems agreed with the map before the edit, they agree with the edited map
      ensures old(TracksAllBut(m, lanes, id)) && id in lanes && old(TrackedAs(id, oldType)) ==> TracksAll(m, lanes)
      ensures driving.cars == old(driving.cars) && driving.turns == old(driving.turns)
      ensures walking.turns == old(walking.turns) && walking.peds == old(walking.peds)
      ensures time == old(time) && carIdCounter == old(carIdCounter) && debug == old(debug) && rng == old(rng)
    {
      RemoveLane(id, oldType);
      AddLane(id, m.laneType(id));
      if old(TracksAllBut(m, lanes, id)) && id in lanes && old(TrackedAs(id, oldType)) {
        forall l
          ensures Tracks(m, lanes, l)
        {
          if l != id {
            assert old(Tracks(m, lanes, l));
            forall k
              ensures l in LanesOf(k) <==> l in old(LanesOf(k))
            {
              assert l in LanesOf(k) - {id} <==> l in old(LanesOf(k)) - {id};
            }
          }
        }
      }
    }

    /** A subsystem's edit_remove_lane, for the subsystem handling type t. */
    method RemoveLane(id: LaneId, t: LaneType)
      requires Valid()
      modifies this
      ensures Valid()
      ensures forall k :: LanesOf(k) == if LaneHandler(t) == Some(k) then old(LanesOf(k)) - {id} else old(LanesOf(k))
      ensures forall l :: l in parking.parkedOn ==> l in old(parking.parkedOn) && parking.parkedOn[l] == old(parking.parkedOn[l])
      ensures driving.cars == old(driving.cars) && driving.turns == old(driving.turns)
      ensures walking.turns == old(walking.turns) && walking.peds == old(walking.peds)
      ensures time == old(time) && carIdCounter == old(carIdCounter) && debug == old(debug) && rng == old(rng)
    {
      match t {
        case Driving => driving := driving.(lanes := driving.lanes - {id});
        case Parking =>
          ParkedIdsShrink(parking.parkedOn, parking.parkedOn - {id});
          parking := parking.(parkedOn := parking.parkedOn - {id});
        case Sidewalk => walking := walking.(lanes := walking.lanes - {id});
        case Biking =>
      }
    }

    /** A subsystem's edit_add_lane, for the subsystem handling type t; a
        parking lane joins with no car parked on it. */
    method AddLane(id: LaneId, t: LaneType)
      requires Valid()
      modifies this
      ensures Valid()
      ensures forall k :: LanesOf(k) == if LaneHandler(t) == Some(k) then old(LanesOf(k)) + {id} else old(LanesOf(k))
      ensures forall l :: l in parking.parkedOn && l != id ==> l in old(parking.parkedOn) && parking.parkedOn[l] == old(parking.parkedOn[l])
      ensures t == Parking ==> id in parking.parkedOn && parking.parkedOn[id] == []
      ensures t != Parking ==> parking == old(parking)
      ensures driving.cars == old(driving.cars) && driving.turns == old(driving.turns)
      ensures walking.turns == old(walking.turns) && walking.peds == old(walking.peds)
      ensures time == old(time) && carIdCounter == old(carIdCounter) && debug == old(debug) && rng == old(rng)
    {
      match t {
        case Driving => driving := driving.(lanes := driving.lanes + {id});
        case Parking =>
          ParkedIdsShrink(parking.parkedOn, parking.parkedOn[id := []]);
          parking := parking.(parkedOn := parking.parkedOn[id := []]);
        case Sidewalk => walking := walking.(lanes := walking.lanes + {id});
        case Biking =>
      }
    }

    /** edit_remove_turn: the turn leaves exactly the subsystem that owns it. */
    method EditRemoveTurn(t: Turn)
      modifies this
      ensures forall k :: TurnsOf(k) == if k == TurnHandler(t) then old(TurnsOf(k)) - {t.id} else old(TurnsOf(k))
      ensures driving.cars == old(driving.cars) && driving.lanes == old(driving.lanes)
      ensures parking == old(parking) && walking.lanes == old(walking.lanes) && walking.peds == old(walking.peds)
      ensures time == old(time) && carIdCounter == old(carIdCounter) && debug == old(debug) && rng == old(rng)
    {
      if t.betweenSidewalks {
        walking := walking.(turns := walking.turns - {t.id});
      } else {
        driving := driving.(turns := driving.turns - {t.id});
      }
    }

    /** edit_add_turn: the turn joins exactly the subsystem that owns it. */
    method EditAddTurn(t: Turn)
      modifies this
      ensures forall k :: TurnsOf(k) == if k == TurnHandler(t) then old(TurnsOf(k)) + {t.id} else old(TurnsOf(k))
      ensures driving.cars == old(driving.cars) && driving.lanes == old(driving.lanes)
      ensures parking == old(parking) && walking.lanes == old(walking.lanes) && walking.peds == old(walking.peds)
      ensures time == old(time) && carIdCounter == old(carIdCounter) && debug == old(debug) && rng == old(rng)
    {
      if t.betweenSidewalks {
        walking := walking.(turns := walking.turns + {t.id});
      } else {
        driving := driving.(turns := driving.turns + {t.id});
      }
    }

    /** total_cars: the counter, which bounds the number of cars in the simulation. */
    function TotalCars(): (r: nat)
      reads this
      requires Valid()
      ensures |KnownCars()| <= r
    {
      BoundedIdsCount(KnownCars(), carIdCounter);
      carIdCounter
    }

    /** seed_parked_cars, delegated to the parking subsystem: its roll over
        its free spots, at the given chance, lists one tracked parking lane
        per new car; the cars are numbered from the counter and parked in that
        order. */
    method SeedParkedCars(percent: Chance, ext: Externals)
      requires Valid()
      requires forall l :: l in ext.rollSpots(rng, percent).0 ==> l in parking.parkedOn
      modifies this
      ensures Valid()
      ensures rng == ext.rollSpots(old(rng), percent).1
      ensures carIdCounter == old(carIdCounter) + |ext.rollSpots(old(rng), percent).0|
      ensures forall c :: c in KnownCars() <==> c in old(KnownCars()) || old(carIdCounter) <= c < carIdCounter
      // each lane gets, after its cars, the new cars the roll put on it
      ensures Filled(old(parking.parkedOn), parking.parkedOn, ext.rollSpots(old(rng), percent).0, old(carIdCounter))
      ensures driving == old(driving) && walking == old(walking) && time == old(time) && debug == old(debug)
    {
      var roll := ext.rollSpots(rng, percent);
      rng := roll.1;
      ghost var known, first, orig := KnownCars(), carIdCounter, parking.parkedOn;
      assert Filled(orig, orig, roll.0[..0], first);
      ParkAll(roll.0, known, first, orig);
      assert roll.0[..|roll.0|] == roll.0;
    }

    /** The loop of seed_parked_cars: one parked car per entry of the fill
        list, in order. */
    method ParkAll(fill: seq<LaneId>, ghost known: set<CarId>, ghost first: nat, ghost orig: map<LaneId, seq<CarId>>)
      requires Valid() && forall l :: l in fill ==> l in orig
      requires FillProgress(known, first, orig, fill, 0)
      modifies this
      ensures Valid()
      ensures FillProgress(known, first, orig, fill, |fill|)
      ensures driving == old(driving) && walking == old(walking) && time == old(time) && debug == old(debug)
      ensures rng == old(rng)
    {
      var i := 0;
      while i < |fill|
        invariant Valid()
        invariant FillProgress(known, first, orig, fill, i)
        invariant driving == old(driving) && walking == old(walking) && time == old(time) && debug == old(debug)
        invariant rng == old(rng)
      {
        assert fill[i] in fill;
        ParkFillEntry(fill, i, known, first, orig);
        i := i + 1;
      }
    }

    /** The loop of seed_parked_cars after i entries of the fill list: the
        counter moved by i, the ids it handed out are the new known cars, and
        each lane got its share of the first i entries. */
    ghost predicate FillProgress(known: set<CarId>, first: nat, orig: map<LaneId, seq<CarId>>, fill: seq<LaneId>, i: nat)
      reads this
    {
      i <= |fill| && carIdCounter == first + i
      && KnownCars() == known + IdsBetween(first, carIdCounter)
      && Filled(orig, parking.parkedOn, fill[..i], first)
    }

    /** Entry i of the fill list: its car is parked, extending the record of
        the cars parked so far. */
    method ParkFillEntry(fill: seq<LaneId>, i: nat, ghost known: set<CarId>, ghost first: nat, ghost orig: map<LaneId, seq<CarId>>)
      requires Valid() && i < |fill| && fill[i] in orig
      requires FillProgress(known, first, orig, fill, i)
      modifies this
      ensures Valid()
      ensures FillProgress(known, first, orig, fill, i + 1)
      ensures driving == old(driving) && walking == old(walking) && time == old(time) && debug == old(debug)
      ensures rng == old(rng)
    {
      ghost var before, c := parking.parkedOn, carIdCounter;
      ghost var knownBefore := KnownCars();
      assert knownBefore == known + IdsBetween(first, c);
      assert Filled(orig, before, fill[..i], first) && fill[i] in before;
      assert c == first + i;
      ParkNewCar(fill[i]);
      assert KnownCars() == knownBefore + {c};
      assert parking.parkedOn == before[fill[i] := before[fill[i]] + [first + i]];
      FillOneMore(orig, before, parking.parkedOn, fill, i, first);
      IdsBetweenExtend(first, c);
    }

    /** One car of seed_parked_cars: the next id from the counter is parked
        at the end of lane l. */
    method ParkNewCar(l: LaneId)
      requires Valid() && l in parking.parkedOn
      modifies this
      ensures Valid()
      ensures carIdCounter == old(carIdCounter) + 1
      ensures KnownCars() == old(KnownCars()) + {old(carIdCounter)}
      ensures parking.parkedOn == old(parking.parkedOn)[l := old(parking.parkedOn)[l] + [old(carIdCounter)]]
      ensures driving == old(driving) && walking == old(walking) && time == old(time) && debug == old(debug)
      ensures rng == old(rng)
    {
      ParkedIdsPush(parking.parkedOn, l, carIdCounter);
      parking := parking.(parkedOn := parking.parkedOn[l := parking.parkedOn[l] + [carIdCounter]]);
      carIdCounter := carIdCounter + 1;
    }

    /** get_empty_lanes: the driving lanes no car is on. */
    method EmptyLanes() returns (r: seq<LaneId>)
      ensures NoDup(r)
      ensures forall l :: l in r <==> l in driving.lanes && driving.EmptyLane(l)
    {
      var rest := driving.lanes;
      r := [];
      while rest != {}
        invariant rest <= driving.lanes && NoDup(r)
        invariant forall l :: l in r ==> l in driving.lanes && driving.EmptyLane(l) && l !in rest
        invariant forall l :: l in driving.lanes && l !in rest && driving.EmptyLane(l) ==> l in r
        decreases |rest|
      {
        var l :| l in rest;
        if driving.EmptyLane(l) {
          NoDupAppend(r, l);
          r := r + [l];
        }
        rest := rest - {l};
      }
    }

    /** start_agent: spawn an agent from lane id, as StartOne says, on the
        orchestrator's stream and clock. */
    method StartAgent(m: Map, id: LaneId, ext: Externals) returns (started: bool)
      requires Valid()
      modifies this
      ensures Valid()
      ensures (started, State()) == StartOne(m, id, ext, old(time), old(State()))
      // a car moves between the parking and driving subsystems; none appears or vanishes
      ensures KnownCars() == old(KnownCars())
      ensures time == old(time) && carIdCounter == old(carIdCounter) && debug == old(debug)
    {
      var pair: (LaneId, LaneId);
      match m.laneType(id) {
        case Sidewalk =>
          var (path, rng') := ext.findPath(rng, id);
          rng := rng';
          if path.Some? {
            walking := walking.(peds := walking.peds + [path.value]);
            return true;
          }
          return false;
        case Driving =>
          var parkingLane := m.findParkingLane(id);
          if parkingLane.None? {
            return false;
          }
          pair := (id, parkingLane.value);
        case Parking =>
          var drivingLane := m.findDrivingLane(id);
          if drivingLane.None? {
            return false;
          }
          pair := (drivingLane.value, id);
        case Biking =>
          return false;
      }
      started := StartParkedCar(pair.0, pair.1, ext);
    }

    /** The car-starting half of start_agent, as StartFromPair says. */
    method StartParkedCar(drivingLane: LaneId, parkingLane: LaneId, ext: Externals) returns (started: bool)
      requires Valid()
      modifies this
      ensures Valid()
      ensures (started, State()) == StartFromPair(drivingLane, parkingLane, ext, old(time), old(State()))
      ensures KnownCars() == old(KnownCars())
      ensures time == old(time) && carIdCounter == old(carIdCounter) && debug == old(debug)
    {
      if !HasParkedCar(parking.parkedOn, parkingLane) {
        return false;
      }
      var car := Last(parking.parkedOn[parkingLane]);
      var (ok, rng') := ext.startCar(rng, time, drivingLane, car);
      rng := rng';
      if ok {
        ParkedIdsPop(parking.parkedOn, parkingLane);
        parking := parking.(parkedOn := parking.parkedOn[parkingLane := DropLast(parking.parkedOn[parkingLane])]);
        driving := driving.(cars := driving.cars[car := DrivingCar(OnLane(drivingLane), None, false)]);
      }
      return true;
    }

    /** start_many_parked_cars: start_agent on the first min(numCars, number
        of empty driving lanes) of the empty driving lanes, in shuffled
        order; returns that number and how many starts reported success. */
    method StartManyParkedCars(m: Map, numCars: nat, ext: Externals)
      returns (n: nat, actual: nat, ghost lanes: seq<LaneId>)
      requires Valid()
      modifies this
      ensures Valid()
      ensures NoDup(lanes)
      ensures forall l :: l in lanes <==> l in old(driving.lanes) && old(driving.EmptyLane(l))
      ensures n == Min(numCars, |lanes|)
      // the shuffle takes one draw per lane, and none when there is no lane
      ensures (actual, State()) == StartAll(m, lanes[..n], ext, old(time),
        old(State()).(rng := old(rng).(pos := old(rng).pos + |lanes|)))
      ensures actual <= n && KnownCars() == old(KnownCars()) && SameTracks(old(State()), State())
      ensures time == old(time) && carIdCounter == old(carIdCounter) && debug == old(debug)
    {
      var order := ShuffledEmptyLanes();
      lanes := order;
      n := Min(numCars, |order|);
      ghost var shuffled := State();
      actual := StartEach(m, order[..n], ext);
      StartAllConserves(m, order[..n], ext, time, shuffled);
    }

    /** The first half of start_many_parked_cars: the empty driving lanes,
        shuffled on the stream unless there are none. */
    method ShuffledEmptyLanes() returns (order: seq<LaneId>)
      modifies this
      ensures NoDup(order)
      ensures forall l :: l in order <==> l in driving.lanes && driving.EmptyLane(l)
      // the shuffle takes one draw per lane, and none when there is no lane
      ensures rng == old(rng).(pos := old(rng).pos + |order|)
      ensures driving == old(driving) && parking == old(parking) && walking == old(walking)
      ensures time == old(time) && carIdCounter == old(carIdCounter) && debug == old(debug)
    {
      var found := EmptyLanes();
      order := found;
      // don't disturb the random stream when there is nothing to shuffle
      if found != [] {
        order := Shuffle(found, rng);
        rng := rng.(pos := rng.pos + |found|);
      }
      forall l
        ensures l in order <==> l in found
      {
        assert l in order <==> l in multiset(order);
        assert l in found <==> l in multiset(found);
      }
      assert |order| == |multiset(order)| == |found|;
    }

    /** The loop of start_many_parked_cars: start_agent on each lane in turn,
        counting the starts that report success. */
    method StartEach(m: Map, lanes: seq<LaneId>, ext: Externals) returns (actual: nat)
      requires Valid()
      modifies this
      ensures Valid()
      ensures (actual, State()) == StartAll(m, lanes, ext, old(time), old(State()))
      ensures time == old(time) && carIdCounter == old(carIdCounter) && debug == old(debug)
    {
      actual := 0;
      var i := 0;
      while i < |lanes|
        invariant 0 <= i <= |lanes|
        invariant Valid()
        invariant actual == StartAll(m, lanes[..i], ext, old(time), old(State())).0
        invariant State() == StartAll(m, lanes[..i], ext, old(time), old(State())).1
        invariant time == old(time) && carIdCounter == old(carIdCounter) && debug == old(debug)
      {
        StartAllStep(m, lanes, i, ext, old(time), old(State()));
        var ok := StartAgent(m, lanes[i], ext);
        if ok {
          actual := actual + 1;
        }
        i := i + 1;
      }
      assert lanes[..i] == lanes;
    }

    /** step: one tick of the clock, then one step of each movement subsystem,
        whose results (`driven`, `walked`) come from outside this model.  The
        driving step moves or retires cars and never raises a debug flag. */
    method Step(driven: map<CarId, DrivingCar>, walked: seq<seq<LaneId>>)
      requires Valid()
      requires StepAllowed(driving.cars, driven)
      modifies this
      ensures Valid()
      ensures time == old(time) + 1
      ensures driving == old(driving).(cars := driven) && walking == old(walking).(peds := walked)
      ensures parking == old(parking) && carIdCounter == old(carIdCounter) && debug == old(debug) && rng == old(rng)
    {
      time := time + 1;
      driving := driving.(cars := driven);
      walking := walking.(peds := walked);
    }

    /** get_car_state: a car the driving subsystem holds is moving, or stuck
        if it waits for something; any other car is parked. */
    function GetCarState(c: CarId): (s: CarState)
      reads this
      ensures s == Moving <==> c in driving.cars && driving.cars[c].waitingFor.None?
      ensures s == Stuck <==> c in driving.cars && driving.cars[c].waitingFor.Some?
      ensures s == Parked <==> c !in driving.cars
    {
      if c in driving.cars then
        if driving.cars[c].waitingFor.None? then Moving else Stuck
      else
        Parked
    }

    /** car_tooltip: a driving car describes itself (`lines`); any other car
        is reported parked (`name` renders its id). */
    function CarTooltip(car: CarId, lines: DrivingCar -> seq<string>, name: CarId -> string): (r: seq<string>)
      reads this
      ensures GetCarState(car) == Parked ==> r == [name(car) + " is parked"]
      ensures GetCarState(car) != Parked ==> r == lines(driving.cars[car])
    {
      if car in driving.cars then lines(driving.cars[car]) else [name(car) + " is parked"]
    }

    /** toggle_debug: clear the flag of a previously debugged other car,
        flip the flag of this one, and make it the debugged car.  The car
        must be driving (the source unwraps its lookup); a previously
        debugged car that a step has since retired is skipped, where the
        source's unwrap panics. */
    method ToggleDebug(car: CarId)
      requires Valid()
      requires car in driving.cars
      modifies this
      ensures Valid()
      ensures debug == Some(car)
      ensures driving.cars.Keys == old(driving.cars.Keys)
      ensures driving.cars[car].debug == !old(driving.cars[car].debug)
      ensures old(debug).Some? && old(debug).value != car && old(debug).value in driving.cars ==>
        !driving.cars[old(debug).value].debug
      ensures forall c :: c in driving.cars && c != car ==> !driving.cars[c].debug
      ensures forall c :: c in driving.cars && c != car && Some(c) != old(debug) ==>
        driving.cars[c] == old(driving.cars[c])
      ensures forall c :: c in driving.cars ==>
        driving.cars[c].on == old(driving.cars[c].on) && driving.cars[c].waitingFor == old(driving.cars[c].waitingFor)
      // toggling debugging changes no car's state
      ensures forall c :: GetCarState(c) == old(GetCarState(c))
      // where the source does not panic, the driving cars end as it leaves them
      ensures ToggleDebugAsWritten(old(debug), old(driving.cars), car).Some? ==>
        driving.cars == ToggleDebugAsWritten(old(debug), old(driving.cars), car).value
      ensures driving.lanes == old(driving.lanes) && driving.turns == old(driving.turns)
      ensures parking == old(parking) && walking == old(walking)
      ensures time == old(time) && carIdCounter == old(carIdCounter) && rng == old(rng)
    {
      if debug.Some? && debug.value != car && debug.value in driving.cars {
        var c := debug.value;
        driving := driving.(cars := driving.cars[c := driving.cars[c].(debug := false)]);
      }
      driving := driving.(cars := driving.cars[car := driving.cars[car].(debug := !driving.cars[car].debug)]);
      debug := Some(car);
    }
  }
}
