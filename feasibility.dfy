/** What every assignment the solver may return (within the declared bounds
    and satisfying all constraints) looks like, and when the big-M
    constraints switch off. */
module Feasibility {
  import opened Seqs
  import opened Vrptw
  import opened Milp
  import opened Formulation
  import opened Layout
  import opened Meaning

  lemma ArcBounds(p: Problem, a: Assignment, v: int)
    requires WithinBounds(a, Vars(p)) && 0 <= v < Fleet(p)
    ensures forall i, j :: 0 <= i < Locations(p) && 0 <= j < Locations(p) ==> 0 <= a(X(v, i, j)) <= 1
  {
    forall i, j | 0 <= i < Locations(p) && 0 <= j < Locations(p)
      ensures 0 <= a(X(v, i, j)) <= 1
    {
      BoundsOfDeclared(p, a, X(v, i, j));
    }
  }

  /** Every customer is served by exactly one vehicle. */
  lemma FeasibleServedOnce(p: Problem, subSets: seq<seq<int>>, a: Assignment, i: int)
    requires Feasible(p, subSets, a)
    requires 1 <= i < Locations(p)
    ensures exists v :: SoleServer(a, i, Fleet(p), v)
  {
    AssignFamilyExactly(p, AssignOnce(p, i));
    forall v | 0 <= v < Fleet(p)
      ensures 0 <= a(Y(v, i)) <= 1
    {
      BoundsOfDeclared(p, a, Y(v, i));
    }
    AssignOnceMeaning(p, a, i);
  }

  /** A customer served by v is entered and left by exactly y[v, i] of v's
      arcs: once if served, never otherwise. */
  lemma FeasibleVisit(p: Problem, subSets: seq<seq<int>>, a: Assignment, v: int, i: int)
    requires Feasible(p, subSets, a)
    requires 0 <= v < Fleet(p) && 1 <= i < Locations(p)
    ensures Total(InValues(a, v, i, Locations(p))) == Total(OutValues(a, v, i, Locations(p))) == a(Y(v, i))
    ensures a(Y(v, i)) == 1 ==>
            exists j :: 0 <= j < Locations(p) && a(X(v, j, i)) == 1 &&
                        forall l :: 0 <= l < Locations(p) && l != j ==> a(X(v, l, i)) == 0
    ensures a(Y(v, i)) == 0 ==> forall j :: 0 <= j < Locations(p) ==> a(X(v, j, i)) == 0
  {
    LinkFamilyExactly(p, LinkServed(p, v, i));
    BalanceFamilyExactly(p, FlowBalance(p, v, i));
    ArcBounds(p, a, v);
    LinkServedMeaning(p, a, v, i);
    ServedMeansEnteredOnce(p, a, v, i);
    ServedMeansLeftOnce(p, a, v, i);
  }

  /** A vehicle serving a customer uses an arc out of the depot. */
  lemma FeasibleLeavesDepot(p: Problem, subSets: seq<seq<int>>, a: Assignment, v: int, i: int)
    requires Feasible(p, subSets, a)
    requires 0 <= v < Fleet(p) && 1 <= i < Locations(p)
    requires a(Y(v, i)) == 1
    ensures exists j :: 0 <= j < Locations(p) && a(X(v, 0, j)) == 1
  {
    StartFamilyExactly(p, StartAtDepot(p, v, i));
    ServingVehicleLeavesDepot(p, a, v, i);
    ArcBounds(p, a, v);
  }

  /** At most one arc of each vehicle returns to the depot. */
  lemma FeasibleReturnOnce(p: Problem, subSets: seq<seq<int>>, a: Assignment, v: int)
    requires Feasible(p, subSets, a)
    requires 0 <= v < Fleet(p)
    ensures forall i, k :: 0 <= i < Locations(p) && 0 <= k < Locations(p) && a(X(v, i, 0)) == 1 && a(X(v, k, 0)) == 1 ==> i == k
  {
    ReturnFamilyExactly(p, ReturnOnce(p, v));
    ArcBounds(p, a, v);
    ReturnOnceMeaning(p, a, v);
  }

  /** No vehicle uses an arc from a location to itself. */
  lemma FeasibleNoSelfLoops(p: Problem, subSets: seq<seq<int>>, a: Assignment, v: int)
    requires Feasible(p, subSets, a)
    requires 0 <= v < Fleet(p)
    ensures forall i :: 0 <= i < Locations(p) ==> a(X(v, i, i)) == 0
  {
    SelfLoopFamilyExactly(p, NoSelfLoops(p, v));
    ArcBounds(p, a, v);
    NoSelfLoopsMeaning(p, a, v);
  }

  /** Flow conservation at every location, the depot included. */
  lemma FeasibleFlowBalance(p: Problem, subSets: seq<seq<int>>, a: Assignment, v: int, i: int)
    requires Feasible(p, subSets, a)
    requires 0 <= v < Fleet(p) && 0 <= i < Locations(p)
    ensures Total(OutValues(a, v, i, Locations(p))) == Total(InValues(a, v, i, Locations(p)))
  {
    BalanceFamilyExactly(p, FlowBalance(p, v, i));
    FlowBalanceMeaning(p, a, v, i);
  }

  /** The arcs of a vehicle between different members of a stored subset
      (the terms PairRowsExactly describes) number at most one less than its
      size, so the vehicle closes no sub-tour inside it: some member is left
      by no arc towards another member. */
  lemma FeasibleNoClosedSubTour(p: Problem, subSets: seq<seq<int>>, a: Assignment, v: int, k: int)
    requires Feasible(p, subSets, a)
    requires 0 <= v < Fleet(p) && 0 <= k < |subSets|
    requires LocationsOnly(p, subSets[k])
    ensures EvalTerms(a, PairRows(v, subSets[k], |subSets[k]|)) <= |subSets[k]| - 1
    ensures !ClosedWithin(a, v, subSets[k])
  {
    var s := subSets[k];
    SubTourFamilyExactly(p, subSets, SubTourCut(v, s));
    assert Satisfies(a, SubTourCut(v, s));
    assert Eval(a, Const(|s| - 1)) == |s| - 1;
    ArcBounds(p, a, v);
    assert NonNegativeWithin(a, v, s);
    if ClosedWithin(a, v, s) {
      CutForbidsClosedSubTour(a, v, s);
      assert false;
    }
  }

  /** Along a used arc into a customer, the arrival time grows by at least
      the travel and service time. */
  lemma FeasibleArrivalOrder(p: Problem, subSets: seq<seq<int>>, a: Assignment, v: int, i: int, j: int)
    requires Feasible(p, subSets, a)
    requires 0 <= v < Fleet(p) && 0 <= i < Locations(p) && 1 <= j < Locations(p)
    requires a(X(v, i, j)) == 1
    ensures a(T(v, j)) >= a(T(v, i)) + Dist(p, i, j) + Service(p, i)
  {
    ArrivalFamilyExactly(p, Arrival(p, v, i, j));
    ArrivalOnUsedArc(p, a, v, i, j);
  }

  /** For a served customer the penalty variables cover the earliness and
      the lateness, and each stays within [0, serviceTime]. */
  lemma FeasiblePenalties(p: Problem, subSets: seq<seq<int>>, a: Assignment, v: int, i: int)
    requires Feasible(p, subSets, a)
    requires 0 <= v < Fleet(p) && 1 <= i < Locations(p)
    ensures a(Y(v, i)) == 1 ==> a(PenB(v, i)) >= Earliest(p, i) - a(T(v, i))
    ensures a(Y(v, i)) == 1 ==> a(PenD(v, i)) >= a(T(v, i)) + Service(p, i) - Latest(p, i)
    ensures 0 <= a(PenB(v, i)) <= Service(p, i) && 0 <= a(PenD(v, i)) <= Service(p, i)
  {
    EarlyFamilyExactly(p, EarlyPenalty(p, v, i));
    LateFamilyExactly(p, LatePenalty(p, v, i));
    BoundsOfDeclared(p, a, PenB(v, i));
    BoundsOfDeclared(p, a, PenD(v, i));
    if a(Y(v, i)) == 1 {
      EarlyOnServed(p, a, v, i);
      LateOnServed(p, a, v, i);
    }
  }

  /** Along a used arc the waiting variable covers the idle time before the
      next arrival, and stays within [0, 10000]. */
  lemma FeasibleWait(p: Problem, subSets: seq<seq<int>>, a: Assignment, v: int, i: int, j: int)
    requires Feasible(p, subSets, a)
    requires 0 <= v < Fleet(p) && 0 <= i < Locations(p) && 0 <= j < Locations(p)
    ensures a(X(v, i, j)) == 1 ==> a(Wait(v, i)) >= a(T(v, j)) - Service(p, i) - Dist(p, i, j) - a(T(v, i))
    ensures 0 <= a(Wait(v, i)) <= MaxWait
  {
    WaitFamilyExactly(p, WaitSlack(p, v, i, j));
    BoundsOfDeclared(p, a, Wait(v, i));
    if a(X(v, i, j)) == 1 {
      WaitOnUsedArc(p, a, v, i, j);
    }
  }

  /** Every route keeps the working time, so the objective is at most the
      fleet size times that budget. */
  lemma FeasibleWithinBudget(p: Problem, subSets: seq<seq<int>>, a: Assignment)
    requires Feasible(p, subSets, a)
    ensures forall v :: 0 <= v < Fleet(p) ==> RouteCost(a, p, v) <= WorkingTime(p)
    ensures Eval(a, Objective(p)) <= Fleet(p) * WorkingTime(p)
  {
    forall v | 0 <= v < Fleet(p)
      ensures Satisfies(a, Budget(p, v)) && RouteCost(a, p, v) <= WorkingTime(p)
    {
      BudgetFamilyExactly(p, Budget(p, v));
      BudgetMeaning(a, p, v);
    }
    BudgetBoundsObjective(a, p);
  }

  /** Without vehicles but with a customer, c3 reads 0 = 1: no assignment is feasible. */
  lemma NoFleetInfeasible(p: Problem, subSets: seq<seq<int>>, a: Assignment)
    requires Fleet(p) == 0 && Locations(p) >= 2
    ensures !Feasible(p, subSets, a)
  {
    AssignFamilyExactly(p, AssignOnce(p, 1));
    assert ServedBy(1, 0) == [];
    assert !Satisfies(a, AssignOnce(p, 1));
  }

  // ---------------------------------------------------------------- big-M relaxation

  /** c10 on an unused arc holds for all declared times once M covers the
      horizon plus the travel and service time. */
  lemma ArrivalRelaxed(p: Problem, a: Assignment, v: int, i: int, j: int)
    requires WithinBounds(a, Vars(p))
    requires 0 <= v < Fleet(p) && 0 <= i < Locations(p) && 0 <= j < Locations(p)
    requires a(X(v, i, j)) == 0
    requires Horizon(p) + Dist(p, i, j) + Service(p, i) <= BigM
    ensures Satisfies(a, Arrival(p, v, i, j))
  {
    BoundsOfDeclared(p, a, T(v, i));
    BoundsOfDeclared(p, a, T(v, j));
    ArrivalOnUnusedArc(p, a, v, i, j);
  }

  /** c11 for an unserved location holds once M covers the earliest time. */
  lemma EarlyRelaxed(p: Problem, a: Assignment, v: int, i: int)
    requires WithinBounds(a, Vars(p))
    requires 0 <= v < Fleet(p) && 0 <= i < Locations(p)
    requires a(Y(v, i)) == 0
    requires Earliest(p, i) <= BigM
    ensures Satisfies(a, EarlyPenalty(p, v, i))
  {
    BoundsOfDeclared(p, a, T(v, i));
    BoundsOfDeclared(p, a, PenB(v, i));
    EarlyOnUnserved(p, a, v, i);
  }

  /** c12 for an unserved location holds once M covers the horizon plus the
      service time past the window's end. */
  lemma LateRelaxed(p: Problem, a: Assignment, v: int, i: int)
    requires WithinBounds(a, Vars(p))
    requires 0 <= v < Fleet(p) && 0 <= i < Locations(p)
    requires a(Y(v, i)) == 0
    requires Horizon(p) + Service(p, i) - Latest(p, i) <= BigM
    ensures Satisfies(a, LatePenalty(p, v, i))
  {
    BoundsOfDeclared(p, a, T(v, i));
    BoundsOfDeclared(p, a, PenD(v, i));
    LateOnUnserved(p, a, v, i);
  }

  /** c13 on an unused arc holds once M covers the horizon. */
  lemma WaitRelaxed(p: Problem, a: Assignment, v: int, i: int, j: int)
    requires WithinBounds(a, Vars(p))
    requires 0 <= v < Fleet(p) && 0 <= i < Locations(p) && 0 <= j < Locations(p)
    requires a(X(v, i, j)) == 0
    requires Horizon(p) - Service(p, i) - Dist(p, i, j) <= BigM
    ensures Satisfies(a, WaitSlack(p, v, i, j))
  {
    BoundsOfDeclared(p, a, T(v, i));
    BoundsOfDeclared(p, a, T(v, j));
    BoundsOfDeclared(p, a, Wait(v, i));
    WaitOnUnusedArc(p, a, v, i, j);
  }
}
