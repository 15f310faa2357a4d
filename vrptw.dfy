/** The VRPTW problem description the model builder reads: customers (index 0 is
    the depot), the fleet and the travel-cost matrix. All times and costs are
    integers. */
module Vrptw {

  /** One location. `bv`/`dv` are the earliest and latest times of its window;
      the depot's `dv` is the time horizon of every route. */
  datatype Customer = Customer(id: int, serviceTime: int, bv: int, dv: int, penalty: int)

  /** A vehicle with its working-time budget. */
  datatype Vehicle = Vehicle(wv: int)

  datatype Problem = Problem(customers: seq<Customer>, numberOfVehicles: nat,
                             vehicles: seq<Vehicle>, distanceMatrix: seq<seq<int>>)

  /** What the builder's array accesses demand of the problem. Every read of
      the distance matrix and of the first vehicle sits inside a loop over the
      vehicles, so only when there is a vehicle must the matrix have at least
      one row and column per location and the fleet list a first entry. */
  predicate WellFormed(p: Problem)
  {
    p.numberOfVehicles > 0 ==>
      && |p.distanceMatrix| >= |p.customers|
      && (forall r :: 0 <= r < |p.distanceMatrix| ==> |p.distanceMatrix[r]| >= |p.customers|)
      && |p.vehicles| > 0
  }

  /** Number of locations, depot included. */
  function Locations(p: Problem): nat { |p.customers| }

  /** x names a location: an index into the list of customers, 0 being the depot. */
  predicate IsLocation(p: Problem, x: int) { 0 <= x < Locations(p) }

  /** Every member of s names a location. */
  predicate LocationsOnly(p: Problem, s: seq<int>)
  {
    forall q :: 0 <= q < |s| ==> IsLocation(p, s[q])
  }

  /** Every customer's id names a location. This is what indexing x by id
      (as c9 does) relies on; it does not demand that an id equal its index. */
  predicate IdsAreLocations(p: Problem)
  {
    forall k :: 0 <= k < |p.customers| ==> IsLocation(p, p.customers[k].id)
  }

  /** Number of indices 1 .. n-1 that a loop `for (i = 1; i < n; i++)` visits. */
  function NonDepot(n: nat): nat { if n == 0 then 0 else n - 1 }

  // Accessors for in-range indices; out of range they give 0 and are never
  // reached by a well-formed build.

  function Dist(p: Problem, i: int, j: int): int
  {
    if 0 <= i < |p.distanceMatrix| && 0 <= j < |p.distanceMatrix[i]| then p.distanceMatrix[i][j] else 0
  }

  function Service(p: Problem, i: int): int
  {
    if 0 <= i < |p.customers| then p.customers[i].serviceTime else 0
  }

  function Earliest(p: Problem, i: int): int
  {
    if 0 <= i < |p.customers| then p.customers[i].bv else 0
  }

  function Latest(p: Problem, i: int): int
  {
    if 0 <= i < |p.customers| then p.customers[i].dv else 0
  }

  function Penalty(p: Problem, i: int): int
  {
    if 0 <= i < |p.customers| then p.customers[i].penalty else 0
  }

  /** Upper bound of every arrival-time variable: the depot's latest time. */
  function Horizon(p: Problem): int { Latest(p, 0) }

  /** The shared working-time budget: the first vehicle's, applied to all. */
  function WorkingTime(p: Problem): int
  {
    if |p.vehicles| > 0 then p.vehicles[0].wv else 0
  }

  /** The ids of all non-depot customers, in input order. */
  function NonDepotIds(cs: seq<Customer>): (ids: seq<int>)
  {
    if cs == [] then []
    else NonDepotIds(cs[..|cs| - 1]) + (if cs[|cs| - 1].id != 0 then [cs[|cs| - 1].id] else [])
  }

  /** Customer ids are pairwise distinct. */
  predicate DistinctIds(cs: seq<Customer>)
  {
    forall k, l :: 0 <= k < l < |cs| ==> cs[k].id != cs[l].id
  }

  predicate Distinct(s: seq<int>)
  {
    forall k, l :: 0 <= k < l < |s| ==> s[k] != s[l]
  }

  /** The collected list holds exactly the non-zero customer ids. */
  lemma {:induction false} NonDepotIdsMembers(cs: seq<Customer>, x: int)
    ensures x in NonDepotIds(cs) <==> x != 0 && exists k :: 0 <= k < |cs| && cs[k].id == x
    decreases |cs|
  {
    if cs != [] {
      var m := |cs| - 1;
      NonDepotIdsMembers(cs[..m], x);
      if x != 0 && (exists k :: 0 <= k < |cs| && cs[k].id == x) {
        var k :| 0 <= k < |cs| && cs[k].id == x;
        if k < m {
          assert cs[..m][k].id == x;
        }
      }
    }
  }

  /** With distinct customer ids the collected list has no repeated id. */
  lemma {:induction false} NonDepotIdsDistinct(cs: seq<Customer>)
    requires DistinctIds(cs)
    ensures Distinct(NonDepotIds(cs))
    decreases |cs|
  {
    if cs != [] {
      var m := |cs| - 1;
      assert DistinctIds(cs[..m]);
      NonDepotIdsDistinct(cs[..m]);
      NonDepotIdsMembers(cs[..m], cs[m].id);
    }
  }
}
