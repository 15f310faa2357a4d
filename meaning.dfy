/** What each constraint family says about an assignment, in terms of the
    values of the variables it mentions. */
module Meaning {
  import opened Seqs
  import opened Vrptw
  import opened Milp
  import opened Formulation

  // ---------------------------------------------------------------- sums of values

  /** Values of the arcs of v leaving i, towards 0 .. k-1. */
  function OutValues(a: Assignment, v: int, i: int, k: nat): seq<int> { seq(k, j => a(X(v, i, j))) }

  /** Values of the arcs of v entering i, from 0 .. k-1. */
  function InValues(a: Assignment, v: int, i: int, k: nat): seq<int> { seq(k, j => a(X(v, j, i))) }

  /** Values of the self-arcs of v at 0 .. k-1. */
  function SelfValues(a: Assignment, v: int, k: nat): seq<int> { seq(k, i => a(X(v, i, i))) }

  /** Values of y[0, i] .. y[k-1, i]. */
  function ServedValues(a: Assignment, i: int, k: nat): seq<int> { seq(k, v => a(Y(v, i))) }

  /** A sum of unit terms evaluates to the sum of the variables' values. */
  lemma {:induction false} EvalUnits(a: Assignment, ts: seq<Term>, vals: seq<int>)
    requires |ts| == |vals|
    requires forall k :: 0 <= k < |ts| ==> ts[k].coef == 1 && vals[k] == a(ts[k].ref)
    ensures EvalTerms(a, ts) == Total(vals)
    decreases |ts|
  {
    if ts != [] {
      var m := |ts| - 1;
      EvalUnits(a, ts[..m], vals[..m]);
    }
  }

  lemma EvalOutArcs(a: Assignment, v: int, i: int, n: nat)
    ensures Eval(a, Sum(OutArcs(v, i, n))) == Total(OutValues(a, v, i, n))
  {
    EvalUnits(a, OutArcs(v, i, n), OutValues(a, v, i, n));
  }

  lemma EvalInArcs(a: Assignment, v: int, i: int, n: nat)
    ensures Eval(a, Sum(InArcs(v, i, n))) == Total(InValues(a, v, i, n))
  {
    EvalUnits(a, InArcs(v, i, n), InValues(a, v, i, n));
  }

  lemma EvalSelfArcs(a: Assignment, v: int, n: nat)
    ensures Eval(a, Sum(SelfArcs(v, n))) == Total(SelfValues(a, v, n))
  {
    EvalUnits(a, SelfArcs(v, n), SelfValues(a, v, n));
  }

  lemma EvalServedBy(a: Assignment, i: int, n: nat)
    ensures Eval(a, Sum(ServedBy(i, n))) == Total(ServedValues(a, i, n))
  {
    EvalUnits(a, ServedBy(i, n), ServedValues(a, i, n));
  }

  // ---------------------------------------------------------------- c3 .. c8

  /** Vehicle v, and no other of the first k vehicles, serves location i. */
  predicate SoleServer(a: Assignment, i: int, k: nat, v: int)
  {
    0 <= v < k && a(Y(v, i)) == 1 && forall w :: 0 <= w < k && w != v ==> a(Y(w, i)) == 0
  }

  /** c3 with binary y: location i is served by exactly one vehicle, and
      conversely a single serving vehicle satisfies c3. */
  lemma AssignOnceMeaning(p: Problem, a: Assignment, i: int)
    requires forall v :: 0 <= v < Fleet(p) ==> 0 <= a(Y(v, i)) <= 1
    ensures Satisfies(a, AssignOnce(p, i)) <==> exists v :: SoleServer(a, i, Fleet(p), v)
  {
    var s := ServedValues(a, i, Fleet(p));
    EvalServedBy(a, i, Fleet(p));
    if Satisfies(a, AssignOnce(p, i)) {
      TotalExactlyOne(s);
      var k :| 0 <= k < |s| && s[k] == 1 && forall l :: 0 <= l < |s| && l != k ==> s[l] == 0;
      forall w | 0 <= w < Fleet(p) && w != k
        ensures a(Y(w, i)) == 0
      {
        assert s[w] == 0;
      }
      assert SoleServer(a, i, Fleet(p), k);
    }
    if exists v :: SoleServer(a, i, Fleet(p), v) {
      var v :| SoleServer(a, i, Fleet(p), v);
      TotalOneHot(s, v);
    }
  }

  /** c4: y[v, i] equals the number of arcs of v entering i. */
  lemma LinkServedMeaning(p: Problem, a: Assignment, v: int, i: int)
    ensures Satisfies(a, LinkServed(p, v, i)) <==> a(Y(v, i)) == Total(InValues(a, v, i, Locations(p)))
  {
    EvalVar(a, Y(v, i));
    EvalInArcs(a, v, i, Locations(p));
  }

  /** c4 with binary x: a served location is entered by exactly one arc of v,
      an unserved one by none. */
  lemma ServedMeansEnteredOnce(p: Problem, a: Assignment, v: int, i: int)
    requires forall j :: 0 <= j < Locations(p) ==> 0 <= a(X(v, j, i)) <= 1
    requires Satisfies(a, LinkServed(p, v, i))
    ensures a(Y(v, i)) == 1 ==>
            exists j :: 0 <= j < Locations(p) && a(X(v, j, i)) == 1 &&
                        forall l :: 0 <= l < Locations(p) && l != j ==> a(X(v, l, i)) == 0
    ensures a(Y(v, i)) == 0 ==> forall j :: 0 <= j < Locations(p) ==> a(X(v, j, i)) == 0
  {
    var s := InValues(a, v, i, Locations(p));
    LinkServedMeaning(p, a, v, i);
    if a(Y(v, i)) == 1 {
      TotalExactlyOne(s);
      var k :| 0 <= k < |s| && s[k] == 1 && forall l :: 0 <= l < |s| && l != k ==> s[l] == 0;
      forall l | 0 <= l < Locations(p) && l != k
        ensures a(X(v, l, i)) == 0
      {
        assert s[l] == 0;
      }
      assert a(X(v, k, i)) == 1;
    }
    if a(Y(v, i)) == 0 {
      TotalZero(s);
      forall j | 0 <= j < Locations(p)
        ensures a(X(v, j, i)) == 0
      {
        assert s[j] == 0;
      }
    }
  }

  /** c5 with binary x: a vehicle that serves some location uses an arc out of the depot. */
  lemma ServingVehicleLeavesDepot(p: Problem, a: Assignment, v: int, i: int)
    requires Satisfies(a, StartAtDepot(p, v, i))
    requires a(Y(v, i)) == 1
    ensures exists j :: 0 <= j < Locations(p) && a(X(v, 0, j)) >= 1
  {
    var s := OutValues(a, v, 0, Locations(p));
    EvalVar(a, Y(v, i));
    EvalOutArcs(a, v, 0, Locations(p));
    TotalPositive(s);
    var k :| 0 <= k < |s| && s[k] > 0;
    assert a(X(v, 0, k)) >= 1;
  }

  /** c6 with binary x: at most one arc of v enters the depot. */
  lemma ReturnOnceMeaning(p: Problem, a: Assignment, v: int)
    requires forall i :: 0 <= i < Locations(p) ==> 0 <= a(X(v, i, 0)) <= 1
    requires Satisfies(a, ReturnOnce(p, v))
    ensures forall i, k :: 0 <= i < Locations(p) && 0 <= k < Locations(p) && a(X(v, i, 0)) == 1 && a(X(v, k, 0)) == 1 ==> i == k
  {
    var s := InValues(a, v, 0, Locations(p));
    EvalInArcs(a, v, 0, Locations(p));
    TotalAtMostOne(s);
    forall i, k | 0 <= i < Locations(p) && 0 <= k < Locations(p) && a(X(v, i, 0)) == 1 && a(X(v, k, 0)) == 1
      ensures i == k
    {
      assert s[i] == 1 && s[k] == 1;
    }
  }

  /** c7 with non-negative x: satisfied exactly when no self-arc is used. */
  lemma NoSelfLoopsMeaning(p: Problem, a: Assignment, v: int)
    requires forall i :: 0 <= i < Locations(p) ==> a(X(v, i, i)) >= 0
    ensures Satisfies(a, NoSelfLoops(p, v)) <==> forall i :: 0 <= i < Locations(p) ==> a(X(v, i, i)) == 0
  {
    var s := SelfValues(a, v, Locations(p));
    EvalSelfArcs(a, v, Locations(p));
    if Satisfies(a, NoSelfLoops(p, v)) {
      TotalZero(s);
      forall i | 0 <= i < Locations(p)
        ensures a(X(v, i, i)) == 0
      {
        assert s[i] == 0;
      }
    }
    if forall i :: 0 <= i < Locations(p) ==> a(X(v, i, i)) == 0 {
      TotalAllZero(s);
    }
  }

  /** c8: as many arcs of v leave i as enter it. */
  lemma FlowBalanceMeaning(p: Problem, a: Assignment, v: int, i: int)
    ensures Satisfies(a, FlowBalance(p, v, i)) <==>
            Total(OutValues(a, v, i, Locations(p))) == Total(InValues(a, v, i, Locations(p)))
  {
    EvalOutArcs(a, v, i, Locations(p));
    EvalInArcs(a, v, i, Locations(p));
  }

  /** c4 and c8 together: a served location is also left exactly y[v, i] times. */
  lemma ServedMeansLeftOnce(p: Problem, a: Assignment, v: int, i: int)
    requires Satisfies(a, LinkServed(p, v, i)) && Satisfies(a, FlowBalance(p, v, i))
    ensures Total(OutValues(a, v, i, Locations(p))) == a(Y(v, i))
  {
    LinkServedMeaning(p, a, v, i);
    FlowBalanceMeaning(p, a, v, i);
  }

  // ---------------------------------------------------------------- c9

  /** The terms of c9's row for i: one x[v, i, j] per later member j != i. */
  lemma {:induction false} PairRowExactly(v: int, i: int, s: seq<int>, k: nat, t: Term)
    requires k <= |s|
    ensures t in PairRow(v, i, s, k) <==> exists r :: 0 <= r < k && s[r] != i && t == Term(1, X(v, i, s[r]))
    decreases k
  {
    if k > 0 {
      PairRowExactly(v, i, s, k - 1, t);
    }
  }

  /** Members q and l of s are distinct and t is the term x[v, s[q], s[l]]. */
  predicate InnerPair(v: int, s: seq<int>, q: int, l: int, t: Term)
  {
    0 <= q < |s| && 0 <= l < |s| && s[q] != s[l] && t == Term(1, X(v, s[q], s[l]))
  }

  /** The terms of c9: x[v, i, j] for ordered pairs of members with i != j. */
  lemma {:induction false} PairRowsExactly(v: int, s: seq<int>, r: nat, t: Term)
    requires r <= |s|
    ensures t in PairRows(v, s, r) <==> exists q, l :: q < r && InnerPair(v, s, q, l, t)
    decreases r
  {
    if r > 0 {
      var row := PairRow(v, s[r - 1], s, |s|);
      PairRowsExactly(v, s, r - 1, t);
      PairRowExactly(v, s[r - 1], s, |s|, t);
      assert PairRows(v, s, r) == PairRows(v, s, r - 1) + row;
      if t in row {
        var l :| 0 <= l < |s| && s[l] != s[r - 1] && t == Term(1, X(v, s[r - 1], s[l]));
        assert InnerPair(v, s, r - 1, l, t);
      }
      if exists q, l :: q < r && InnerPair(v, s, q, l, t) {
        var q, l :| q < r && InnerPair(v, s, q, l, t);
        if q == r - 1 {
          assert 0 <= l < |s| && s[l] != s[r - 1] && t == Term(1, X(v, s[r - 1], s[l]));
          assert t in row;
        } else {
          assert q < r - 1 && InnerPair(v, s, q, l, t);
        }
      }
    }
  }

  lemma {:induction false} PairRowLength(v: int, i: int, s: seq<int>, k: nat)
    requires k <= |s| && Vrptw.Distinct(s)
    ensures |PairRow(v, i, s, k)| == if i in s[..k] then k - 1 else k
    decreases k
  {
    if k > 0 {
      PairRowLength(v, i, s, k - 1);
      assert s[..k] == s[..k - 1] + [s[k - 1]];
      if i == s[k - 1] {
        assert i !in s[..k - 1];
      }
    }
  }

  /** With distinct members, c9 has |s| (|s| - 1) terms. */
  lemma {:induction false} PairRowsLength(v: int, s: seq<int>, r: nat)
    requires r <= |s| && Vrptw.Distinct(s)
    ensures |PairRows(v, s, r)| == r * (|s| - 1)
    decreases r
  {
    if r > 0 {
      PairRowsLength(v, s, r - 1);
      PairRowLength(v, s[r - 1], s, |s|);
      assert s[..|s|] == s;
      assert (r - 1) * (|s| - 1) + (|s| - 1) == r * (|s| - 1);
    }
  }

  lemma {:induction false} PairRowAtLeast(a: Assignment, v: int, i: int, s: seq<int>, k: nat, l: nat)
    requires k <= |s| && l < k && s[l] != i
    requires forall q :: 0 <= q < |s| ==> a(X(v, i, s[q])) >= 0
    ensures EvalTerms(a, PairRow(v, i, s, k)) >= a(X(v, i, s[l]))
    decreases k
  {
    var tail := if i != s[k - 1] then [Term(1, X(v, i, s[k - 1]))] else [];
    EvalTermsAppend(a, PairRow(v, i, s, k - 1), tail);
    if l < k - 1 {
      PairRowAtLeast(a, v, i, s, k - 1, l);
    } else {
      PairRowNonNegative(a, v, i, s, k - 1);
    }
  }

  lemma {:induction false} PairRowNonNegative(a: Assignment, v: int, i: int, s: seq<int>, k: nat)
    requires k <= |s|
    requires forall q :: 0 <= q < |s| ==> a(X(v, i, s[q])) >= 0
    ensures EvalTerms(a, PairRow(v, i, s, k)) >= 0
    decreases k
  {
    if k > 0 {
      var tail := if i != s[k - 1] then [Term(1, X(v, i, s[k - 1]))] else [];
      EvalTermsAppend(a, PairRow(v, i, s, k - 1), tail);
      PairRowNonNegative(a, v, i, s, k - 1);
    }
  }

  /** x of vehicle v is non-negative on every pair of members of s. */
  predicate NonNegativeWithin(a: Assignment, v: int, s: seq<int>)
  {
    forall q, l :: 0 <= q < |s| && 0 <= l < |s| ==> a(X(v, s[q], s[l])) >= 0
  }

  /** Vehicle v uses an arc from member s[q] to some other member of s. */
  predicate LeavesWithin(a: Assignment, v: int, s: seq<int>, q: int)
    requires 0 <= q < |s|
  {
    exists l :: 0 <= l < |s| && s[l] != s[q] && a(X(v, s[q], s[l])) >= 1
  }

  /** Every member of s is left towards another member of s: the arcs of v
      close a sub-tour inside s. */
  predicate ClosedWithin(a: Assignment, v: int, s: seq<int>)
  {
    forall q :: 0 <= q < |s| ==> LeavesWithin(a, v, s, q)
  }

  /** Each of the first r members leaving to another member adds at least one to c9's sum. */
  lemma {:induction false} PairRowsAtLeast(a: Assignment, v: int, s: seq<int>, r: nat)
    requires r <= |s|
    requires NonNegativeWithin(a, v, s) && ClosedWithin(a, v, s)
    ensures EvalTerms(a, PairRows(v, s, r)) >= r
    decreases r
  {
    if r > 0 {
      var i := s[r - 1];
      PairRowsAtLeast(a, v, s, r - 1);
      EvalTermsAppend(a, PairRows(v, s, r - 1), PairRow(v, i, s, |s|));
      assert LeavesWithin(a, v, s, r - 1);
      var l :| 0 <= l < |s| && s[l] != i && a(X(v, i, s[l])) >= 1;
      forall q | 0 <= q < |s|
        ensures a(X(v, i, s[q])) >= 0
      {
        assert a(X(v, s[r - 1], s[q])) >= 0;
      }
      PairRowAtLeast(a, v, i, s, |s|, l);
    }
  }

  /** c9 cuts off every closed sub-tour inside s: if each member of s is left
      by some arc of v towards another member of s, c9 is violated. */
  lemma CutForbidsClosedSubTour(a: Assignment, v: int, s: seq<int>)
    requires NonNegativeWithin(a, v, s) && ClosedWithin(a, v, s)
    ensures !Satisfies(a, SubTourCut(v, s))
  {
    PairRowsAtLeast(a, v, s, |s|);
  }

  // ---------------------------------------------------------------- c10 .. c13

  /** c10 on a used arc: the arrival at j is no earlier than the arrival at i
      plus the travel and service time. */
  lemma ArrivalOnUsedArc(p: Problem, a: Assignment, v: int, i: int, j: int)
    requires a(X(v, i, j)) == 1
    ensures Satisfies(a, Arrival(p, v, i, j)) <==> a(T(v, j)) >= a(T(v, i)) + Dist(p, i, j) + Service(p, i)
  {
    EvalTermsTwo(a, Term(1, T(v, i)), Term(BigM, X(v, i, j)));
    EvalVar(a, T(v, j));
  }

  /** c10 on an unused arc holds whenever M covers the required time gap. */
  lemma ArrivalOnUnusedArc(p: Problem, a: Assignment, v: int, i: int, j: int)
    requires a(X(v, i, j)) == 0
    ensures Satisfies(a, Arrival(p, v, i, j)) <==> a(T(v, i)) + Dist(p, i, j) + Service(p, i) - BigM <= a(T(v, j))
  {
    EvalTermsTwo(a, Term(1, T(v, i)), Term(BigM, X(v, i, j)));
    EvalVar(a, T(v, j));
  }

  /** c11 for a served location: penB is at least the earliness. */
  lemma EarlyOnServed(p: Problem, a: Assignment, v: int, i: int)
    requires a(Y(v, i)) == 1
    ensures Satisfies(a, EarlyPenalty(p, v, i)) <==> a(PenB(v, i)) >= Earliest(p, i) - a(T(v, i))
  {
    EvalTermsTwo(a, Term(-1, T(v, i)), Term(BigM, Y(v, i)));
    EvalVar(a, PenB(v, i));
  }

  lemma EarlyOnUnserved(p: Problem, a: Assignment, v: int, i: int)
    requires a(Y(v, i)) == 0
    ensures Satisfies(a, EarlyPenalty(p, v, i)) <==> a(PenB(v, i)) >= Earliest(p, i) - a(T(v, i)) - BigM
  {
    EvalTermsTwo(a, Term(-1, T(v, i)), Term(BigM, Y(v, i)));
    EvalVar(a, PenB(v, i));
  }

  /** c12 for a served location: penD is at least the lateness of the service end. */
  lemma LateOnServed(p: Problem, a: Assignment, v: int, i: int)
    requires a(Y(v, i)) == 1
    ensures Satisfies(a, LatePenalty(p, v, i)) <==> a(PenD(v, i)) >= a(T(v, i)) + Service(p, i) - Latest(p, i)
  {
    EvalTermsTwo(a, Term(1, T(v, i)), Term(BigM, Y(v, i)));
    EvalVar(a, PenD(v, i));
  }

  lemma LateOnUnserved(p: Problem, a: Assignment, v: int, i: int)
    requires a(Y(v, i)) == 0
    ensures Satisfies(a, LatePenalty(p, v, i)) <==> a(PenD(v, i)) >= a(T(v, i)) + Service(p, i) - Latest(p, i) - BigM
  {
    EvalTermsTwo(a, Term(1, T(v, i)), Term(BigM, Y(v, i)));
    EvalVar(a, PenD(v, i));
  }

  /** c13 on a used arc: wait[v, i] covers the idle time between leaving i and arriving at j. */
  lemma WaitOnUsedArc(p: Problem, a: Assignment, v: int, i: int, j: int)
    requires a(X(v, i, j)) == 1
    ensures Satisfies(a, WaitSlack(p, v, i, j)) <==>
            a(Wait(v, i)) >= a(T(v, j)) - Service(p, i) - Dist(p, i, j) - a(T(v, i))
  {
    EvalTermsThree(a, Term(1, T(v, j)), Term(-1, T(v, i)), Term(BigM, X(v, i, j)));
    EvalVar(a, Wait(v, i));
  }

  lemma WaitOnUnusedArc(p: Problem, a: Assignment, v: int, i: int, j: int)
    requires a(X(v, i, j)) == 0
    ensures Satisfies(a, WaitSlack(p, v, i, j)) <==>
            a(Wait(v, i)) >= a(T(v, j)) - Service(p, i) - Dist(p, i, j) - a(T(v, i)) - BigM
  {
    EvalTermsThree(a, Term(1, T(v, j)), Term(-1, T(v, i)), Term(BigM, X(v, i, j)));
    EvalVar(a, Wait(v, i));
  }

  // ---------------------------------------------------------------- objective and c2

  /** d[i, 0] x[v, i, 0] + .. + d[i, k-1] x[v, i, k-1]. */
  function ArcRowCost(a: Assignment, p: Problem, v: nat, i: nat, k: nat): int
  {
    if k == 0 then 0 else ArcRowCost(a, p, v, i, k - 1) + Dist(p, i, k - 1) * a(X(v, i, k - 1))
  }

  /** Travel cost of v over the rows 0 .. b-1. */
  function TravelCost(a: Assignment, p: Problem, v: nat, b: nat): int
  {
    if b == 0 then 0 else TravelCost(a, p, v, b - 1) + ArcRowCost(a, p, v, b - 1, Locations(p))
  }

  /** Service time, penalties and waiting of v at location i. */
  function StopCost(a: Assignment, p: Problem, v: nat, i: nat): int
  {
    Service(p, i) * a(Y(v, i)) + Penalty(p, i) * (a(PenB(v, i)) + a(PenD(v, i))) + a(Wait(v, i))
  }

  function StopsCost(a: Assignment, p: Problem, v: nat, k: nat): int
  {
    if k == 0 then 0 else StopsCost(a, p, v, k - 1) + StopCost(a, p, v, k - 1)
  }

  /** The cost of vehicle v's route: travel plus, at every location, service
      time, both penalties weighted by the location's rate, and waiting. */
  function RouteCost(a: Assignment, p: Problem, v: nat): int
  {
    TravelCost(a, p, v, Locations(p)) + StopsCost(a, p, v, Locations(p))
  }

  /** Sum of the route costs of vehicles 0 .. k-1. */
  function FleetCost(a: Assignment, p: Problem, k: nat): int
  {
    if k == 0 then 0 else FleetCost(a, p, k - 1) + RouteCost(a, p, k - 1)
  }

  lemma {:induction false} ArcTermsValue(a: Assignment, p: Problem, v: nat, b: nat, c: nat)
    requires Reachable(Locations(p), Locations(p), b, c)
    ensures EvalTerms(a, Grid(ArcCost, (p, v), Locations(p), Locations(p), 0, b, c))
            == TravelCost(a, p, v, b) + ArcRowCost(a, p, v, b, c)
    decreases b, c
  {
    var n := Locations(p);
    if c > 0 {
      ArcTermsValue(a, p, v, b, c - 1);
      var g := Grid(ArcCost, (p, v), n, n, 0, b, c - 1);
      assert (g + [ArcCost((p, v), 0, b, c - 1)])[..|g|] == g;
    } else if b > 0 {
      ArcTermsValue(a, p, v, b - 1, n);
    }
  }

  lemma {:induction false} ServiceTermsValue(a: Assignment, p: Problem, v: nat, k: nat)
    ensures EvalTerms(a, ServiceTerms(p, v, k)) == StopsCost(a, p, v, k)
    decreases k
  {
    if k > 0 {
      ServiceTermsValue(a, p, v, k - 1);
      var i := k - 1;
      EvalTermsAppend(a, ServiceTerms(p, v, i), ServiceOf(p, v, i));
      EvalTermsFour(a, Term(Service(p, i), Y(v, i)), Term(Penalty(p, i), PenB(v, i)),
                    Term(Penalty(p, i), PenD(v, i)), Term(1, Wait(v, i)));
    }
  }

  /** Each vehicle's part of the objective (and the left side of its c2) is its route cost. */
  lemma VehicleCostValue(a: Assignment, p: Problem, v: nat)
    ensures Eval(a, VehicleCost(p, v)) == RouteCost(a, p, v)
  {
    var n := Locations(p);
    ArcTermsValue(a, p, v, n, 0);
    EvalTermsAppend(a, ArcTerms(p, v), ServiceTerms(p, v, n));
    ServiceTermsValue(a, p, v, n);
  }

  /** Appending a constant-free expression adds its value. */
  lemma EvalAppendSum(a: Assignment, s: seq<Term>, e: LinExpr)
    requires e.constant == 0
    ensures EvalTerms(a, s + e.terms) == EvalTerms(a, s) + Eval(a, e)
  {
    EvalTermsAppend(a, s, e.terms);
  }

  lemma {:induction false} ObjectiveTermsValue(a: Assignment, p: Problem, k: nat)
    ensures EvalTerms(a, ObjectiveTerms(p, k)) == FleetCost(a, p, k)
    decreases k
  {
    if k == 0 {
      assert ObjectiveTerms(p, 0) == [];
    } else {
      ObjectiveTermsValue(a, p, k - 1);
      VehicleCostValue(a, p, k - 1);
      EvalAppendSum(a, ObjectiveTerms(p, k - 1), VehicleCost(p, k - 1));
      assert ObjectiveTerms(p, k) == ObjectiveTerms(p, k - 1) + VehicleCost(p, k - 1).terms;
      assert FleetCost(a, p, k) == FleetCost(a, p, k - 1) + RouteCost(a, p, k - 1);
    }
  }

  /** The objective is the total route cost of the fleet. */
  lemma ObjectiveValue(a: Assignment, p: Problem)
    ensures Eval(a, Objective(p)) == FleetCost(a, p, Fleet(p))
  {
    ObjectiveTermsValue(a, p, Fleet(p));
  }

  /** c2: the route cost of v is within the first vehicle's working time. */
  lemma BudgetMeaning(a: Assignment, p: Problem, v: nat)
    ensures Satisfies(a, Budget(p, v)) <==> RouteCost(a, p, v) <= WorkingTime(p)
  {
    VehicleCostValue(a, p, v);
  }

  lemma {:induction false} FleetCostBound(a: Assignment, p: Problem, k: nat)
    requires forall v :: 0 <= v < k ==> RouteCost(a, p, v) <= WorkingTime(p)
    ensures FleetCost(a, p, k) <= k * WorkingTime(p)
    decreases k
  {
    if k > 0 {
      FleetCostBound(a, p, k - 1);
      assert (k - 1) * WorkingTime(p) + WorkingTime(p) == k * WorkingTime(p);
    }
  }

  /** When every vehicle keeps its c2, the objective is at most the fleet
      size times the working time. */
  lemma BudgetBoundsObjective(a: Assignment, p: Problem)
    requires forall v :: 0 <= v < Fleet(p) ==> Satisfies(a, Budget(p, v))
    ensures Eval(a, Objective(p)) <= Fleet(p) * WorkingTime(p)
  {
    forall v | 0 <= v < Fleet(p)
      ensures RouteCost(a, p, v) <= WorkingTime(p)
    {
      BudgetMeaning(a, p, v);
    }
    FleetCostBound(a, p, Fleet(p));
    ObjectiveValue(a, p);
  }
}
