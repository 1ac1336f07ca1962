/** The parking allocator of scenario.rs: per-road stacks of open spots
    (`seed_parked_cars`) and the neighbourhood-confined breadth-first search
    that pops a spot near a building (`find_spot_near_building`). */
module Parking {
  import opened Common
  import opened Oracle
  import opened MapModel
  import opened DesSim
  import opened Sampling

  /** The open spots of each neighbourhood road, used as stacks: the last
      element is the top. */
  type SpotTable = map<RoadId, seq<ParkingSpot>>

  predicate NoFreeSpot(open: SpotTable, r: RoadId) {
    r !in open || open[r] == []
  }

  // ---------------------------------------------------------------------
  // Reachability through the neighbourhood

  /** The flood fill may go from a to b: b is next to a and in the neighbourhood. */
  ghost predicate Step(m: Map, roads: seq<RoadId>, a: RoadId, b: RoadId) {
    b in m.nextRoads(a) && b in roads
  }

  ghost predicate IsWalk(m: Map, roads: seq<RoadId>, p: seq<RoadId>) {
    |p| > 0 && forall i :: 0 <= i < |p| - 1 ==> Step(m, roads, p[i], p[i + 1])
  }

  /** r can be reached from start without leaving the neighbourhood (start itself excepted). */
  ghost predicate Reachable(m: Map, roads: seq<RoadId>, start: RoadId, r: RoadId) {
    exists p: seq<RoadId> :: IsWalk(m, roads, p) && p[0] == start && Last(p) == r
  }

  /** Every neighbourhood road next to r is in the set. */
  ghost predicate Expanded(m: Map, roads: seq<RoadId>, visited: set<RoadId>, r: RoadId) {
    forall n :: n in m.nextRoads(r) && n in roads ==> n in visited
  }

  lemma ReachableStart(m: Map, roads: seq<RoadId>, start: RoadId)
    ensures Reachable(m, roads, start, start)
  {
    assert IsWalk(m, roads, [start]);
  }

  lemma ReachableExtend(m: Map, roads: seq<RoadId>, start: RoadId, r: RoadId, n: RoadId)
    requires Reachable(m, roads, start, r) && Step(m, roads, r, n)
    ensures Reachable(m, roads, start, n)
  {
    var p: seq<RoadId> :| IsWalk(m, roads, p) && p[0] == start && Last(p) == r;
    var q := p + [n];
    forall i | 0 <= i < |q| - 1
      ensures Step(m, roads, q[i], q[i + 1])
    {
      if i < |p| - 1 {
        assert q[i] == p[i] && q[i + 1] == p[i + 1];
      }
    }
    assert IsWalk(m, roads, q) && q[0] == start && Last(q) == n;
  }

  /** A walk that starts inside a set closed under Step stays inside it. */
  lemma {:induction false} WalkStaysIn(m: Map, roads: seq<RoadId>, visited: set<RoadId>, p: seq<RoadId>)
    requires IsWalk(m, roads, p) && p[0] in visited
    requires forall x :: x in visited ==> Expanded(m, roads, visited, x)
    ensures Last(p) in visited
    decreases |p|
  {
    if |p| > 1 {
      var q := DropLast(p);
      forall i | 0 <= i < |q| - 1
        ensures Step(m, roads, q[i], q[i + 1])
      {
        assert Step(m, roads, p[i], p[i + 1]);
      }
      WalkStaysIn(m, roads, visited, q);
      assert Step(m, roads, p[|p| - 2], p[|p| - 1]);
      assert Expanded(m, roads, visited, Last(q));
    }
  }

  /** Once the frontier is empty, the searched set holds every reachable road. */
  lemma ClosedContainsReachable(m: Map, roads: seq<RoadId>, start: RoadId, visited: set<RoadId>, r: RoadId)
    requires start in visited
    requires forall x :: x in visited ==> Expanded(m, roads, visited, x)
    requires Reachable(m, roads, start, r)
    ensures r in visited
  {
    var p: seq<RoadId> :| IsWalk(m, roads, p) && p[0] == start && Last(p) == r;
    WalkStaysIn(m, roads, visited, p);
  }

  /** No road the search can reach from the building has a spot left. */
  ghost predicate NoReachableSpot(m: Map, roads: seq<RoadId>, b: BuildingId, open: SpotTable) {
    forall r :: Reachable(m, roads, m.buildingRoad(b), r) ==> NoFreeSpot(open, r)
  }

  // ---------------------------------------------------------------------
  // find_spot_near_building

  /** Breadth-first search from the building's road over neighbourhood roads,
      popping the top spot of the first searched road that has one. */
  method FindSpotNearBuilding(m: Map, b: BuildingId, open: SpotTable, roads: seq<RoadId>)
    returns (spot: Option<ParkingSpot>, open': SpotTable, ghost from: RoadId)
    // failure only once every road reachable through the neighbourhood is out of spots,
    // and then no stack changes
    ensures spot.None? ==> open' == open
    ensures spot.None? ==> NoReachableSpot(m, roads, b, open)
    // success: exactly one stack, of a reachable road `from`, loses its top, and that top is the result
    ensures spot.Some? ==>
      from in open && open[from] != []
      && (from == m.buildingRoad(b) || from in roads) && Reachable(m, roads, m.buildingRoad(b), from)
      && spot.value == Last(open[from]) && open' == open[from := DropLast(open[from])]
    // locality: the building's own road is tried first
    ensures m.buildingRoad(b) in open && open[m.buildingRoad(b)] != [] ==>
      spot == Some(Last(open[m.buildingRoad(b)]))
      && open' == open[m.buildingRoad(b) := DropLast(open[m.buildingRoad(b)])]
  {
    var start := m.buildingRoad(b);
    var queue := [start];
    var visited := {start};
    ghost var universe := {start} + set r | r in roads;
    ReachableStart(m, roads, start);
    while true
      invariant start in visited && visited <= universe
      invariant forall x :: x in visited ==> Reachable(m, roads, start, x)
      invariant forall i :: 0 <= i < |queue| ==> queue[i] in visited
      invariant forall x :: x in visited && x !in queue ==> NoFreeSpot(open, x) && Expanded(m, roads, visited, x)
      invariant start in queue ==> queue == [start]
      decreases |universe - visited|, |queue|
    {
      if queue == [] {
        forall r | Reachable(m, roads, start, r)
          ensures NoFreeSpot(open, r)
        {
          ClosedContainsReachable(m, roads, start, visited, r);
        }
        return None, open, start;
      }
      var r := queue[0];
      queue := queue[1..];
      if r in open && open[r] != [] {
        return Some(Last(open[r])), open[r := DropLast(open[r])], r;
      }

      ghost var visited0, queue0 := visited, queue;
      queue, visited := EnqueueNextRoads(m, roads, start, r, queue, visited, universe);
      SearchedStayExhausted(m, roads, open, r, visited0, queue0, visited, queue);
    }
  }

  /** Roads that left the queue before stay exhausted and expanded as the
      searched set grows; r, just expanded, joins them. */
  lemma SearchedStayExhausted(m: Map, roads: seq<RoadId>, open: SpotTable, r: RoadId,
                              visited0: set<RoadId>, queue0: seq<RoadId>, visited: set<RoadId>, queue: seq<RoadId>)
    requires forall x :: x in visited0 && x !in queue0 && x != r ==> NoFreeSpot(open, x) && Expanded(m, roads, visited0, x)
    requires NoFreeSpot(open, r) && Expanded(m, roads, visited, r)
    requires visited0 <= visited
    requires |queue| >= |queue0| && queue[..|queue0|] == queue0
    requires forall x :: x in visited && x !in visited0 ==> x in queue
    ensures forall x :: x in visited && x !in queue ==> NoFreeSpot(open, x) && Expanded(m, roads, visited, x)
  {
    forall x | x in visited && x !in queue
      ensures NoFreeSpot(open, x) && Expanded(m, roads, visited, x)
    {
      if x != r {
        assert x in visited0 && Expanded(m, roads, visited0, x);
      }
    }
  }

  /** The search's bookkeeping while the roads next to one road are
      enqueued: the searched set only grows inside the universe, the queue
      only grows at its end, holds only searched roads and holds every road
      searched since, and each road searched since has moved from the
      unsearched part of the universe onto the queue. */
  ghost predicate Grown(start: RoadId, universe: set<RoadId>,
                        queue: seq<RoadId>, visited: set<RoadId>, queue': seq<RoadId>, visited': set<RoadId>) {
    visited <= visited' <= universe
    && |queue'| >= |queue| && queue'[..|queue|] == queue
    && (forall i :: 0 <= i < |queue'| ==> queue'[i] in visited')
    && (forall x :: x in visited' && x !in visited ==> x in queue')
    && (start !in queue ==> start !in queue')
    && |universe - visited'| + (|queue'| - |queue|) == |universe - visited|
  }

  /** Enqueueing one more unsearched road of the universe keeps the bookkeeping. */
  lemma GrownStep(start: RoadId, universe: set<RoadId>,
                  queue: seq<RoadId>, visited: set<RoadId>, queue': seq<RoadId>, visited': set<RoadId>, n: RoadId)
    requires Grown(start, universe, queue, visited, queue', visited')
    requires start in visited && n !in visited' && n in universe
    ensures Grown(start, universe, queue, visited, queue' + [n], visited' + {n})
  {
    assert universe - (visited' + {n}) == (universe - visited') - {n};
    assert (queue' + [n])[..|queue|] == queue'[..|queue|];
  }

  /** One road next to r: enqueue (and mark searched) it if it is in the
      neighbourhood and not searched yet. */
  method EnqueueIfNew(m: Map, roads: seq<RoadId>, start: RoadId, r: RoadId,
                      queue: seq<RoadId>, visited: set<RoadId>, ghost universe: set<RoadId>,
                      q: seq<RoadId>, v: set<RoadId>, next: seq<RoadId>, n: RoadId)
    returns (q': seq<RoadId>, v': set<RoadId>)
    requires forall x :: x in roads ==> x in universe
    requires start in visited && n in next
    requires Grown(start, universe, queue, visited, q, v)
    requires forall x :: x in v && x !in visited ==> x in next && x in roads
    ensures Grown(start, universe, queue, visited, q', v')
    ensures forall x :: x in v' && x !in visited ==> x in next && x in roads
    ensures v <= v' && (n in roads ==> n in v')
    // n is queued exactly when it is a neighbourhood road not searched yet; nothing else is
    ensures n !in v && n in roads ==> q' == q + [n] && v' == v + {n}
    ensures n in v || n !in roads ==> q' == q && v' == v
  {
    q', v' := q, v;
    // don't flood out of the neighbourhood
    if n !in v && n in roads {
      GrownStep(start, universe, queue, visited, q, v, n);
      q', v' := q + [n], v + {n};
    }
  }

  /** Roads one step from a reachable road are reachable. */
  lemma NextReachable(m: Map, roads: seq<RoadId>, start: RoadId, r: RoadId, visited: set<RoadId>, visited': set<RoadId>)
    requires r in visited && forall x :: x in visited ==> Reachable(m, roads, start, x)
    requires forall x :: x in visited' && x !in visited ==> Step(m, roads, r, x)
    ensures forall x :: x in visited' ==> Reachable(m, roads, start, x)
  {
    forall x | x in visited' && x !in visited
      ensures Reachable(m, roads, start, x)
    {
      ReachableExtend(m, roads, start, r, x);
    }
  }

  /** The inner loop of the search: enqueue (and mark searched) every
      neighbourhood road next to r that has not been searched yet. */
  method EnqueueNextRoads(m: Map, roads: seq<RoadId>, start: RoadId, r: RoadId,
                          queue: seq<RoadId>, visited: set<RoadId>, ghost universe: set<RoadId>)
    returns (queue': seq<RoadId>, visited': set<RoadId>)
    requires forall x :: x in roads ==> x in universe
    requires start in visited && visited <= universe && r in visited
    requires forall x :: x in visited ==> Reachable(m, roads, start, x)
    requires forall i :: 0 <= i < |queue| ==> queue[i] in visited
    ensures Grown(start, universe, queue, visited, queue', visited')
    ensures forall x :: x in visited' ==> Reachable(m, roads, start, x)
    ensures Expanded(m, roads, visited', r)
  {
    var next := m.nextRoads(r);
    queue', visited' := queue, visited;
    var j := 0;
    while j < |next|
      invariant 0 <= j <= |next|
      invariant Grown(start, universe, queue, visited, queue', visited')
      invariant forall x :: x in visited' && x !in visited ==> x in next && x in roads
      invariant forall k :: 0 <= k < j && next[k] in roads ==> next[k] in visited'
    {
      ghost var searched := visited';
      queue', visited' := EnqueueIfNew(m, roads, start, r, queue, visited, universe, queue', visited', next, next[j]);
      forall k | 0 <= k < j + 1 && next[k] in roads
        ensures next[k] in visited'
      {
        if k < j {
          assert next[k] in searched;
        } else {
          assert k == j;
        }
      }
      j := j + 1;
    }
    forall n | n in next && n in roads
      ensures n in visited'
    {
      var k :| 0 <= k < |next| && next[k] == n;
    }
    NextReachable(m, roads, start, r, visited, visited');
  }
}
