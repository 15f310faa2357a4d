/** What the builder puts into the solver model, as functions of the problem:
    the declared variables with their bounds, the objective and the constraint
    families c2 .. c13, each listed in the order of the builder's loops. */
module Formulation {
  import opened Seqs
  import opened Vrptw
  import opened Milp

  /** The big-M constant of the arrival, penalty and waiting constraints. */
  const BigM: int := 10000

  /** Upper bound of every waiting-time variable. */
  const MaxWait: int := 10000

  function Fleet(p: Problem): nat { p.numberOfVehicles }

  /** A sum expression with no constant part. */
  function Sum(ts: seq<Term>): LinExpr { LinExpr(ts, 0) }

  // ---------------------------------------------------------------- variables

  function ArcVar(p: Problem, v: nat, i: nat, j: nat): VarDecl { VarDecl(X(v, i, j), 0, 1, Binary) }
  function ServeVar(p: Problem, u: nat, v: nat, k: nat): VarDecl { VarDecl(Y(v, k + 1), 0, 1, Binary) }
  function TimeVar(p: Problem, u: nat, v: nat, i: nat): VarDecl { VarDecl(T(v, i), 0, Horizon(p), Integer) }
  function EarlyVar(p: Problem, u: nat, v: nat, i: nat): VarDecl { VarDecl(PenB(v, i), 0, Service(p, i), Integer) }
  function LateVar(p: Problem, u: nat, v: nat, i: nat): VarDecl { VarDecl(PenD(v, i), 0, Service(p, i), Integer) }
  function WaitVar(p: Problem, u: nat, v: nat, i: nat): VarDecl { VarDecl(Wait(v, i), 0, MaxWait, Integer) }

  /** x[v, i, j] for every vehicle and ordered pair of locations. */
  function ArcVars(p: Problem): seq<VarDecl> { Grid(ArcVar, p, Locations(p), Locations(p), Fleet(p), 0, 0) }
  /** y[v, i] for every vehicle and every location except the depot. */
  function ServeVars(p: Problem): seq<VarDecl> { Grid(ServeVar, p, Fleet(p), NonDepot(Locations(p)), 0, Fleet(p), 0) }
  function TimeVars(p: Problem): seq<VarDecl> { Grid(TimeVar, p, Fleet(p), Locations(p), 0, Fleet(p), 0) }
  function EarlyVars(p: Problem): seq<VarDecl> { Grid(EarlyVar, p, Fleet(p), Locations(p), 0, Fleet(p), 0) }
  function LateVars(p: Problem): seq<VarDecl> { Grid(LateVar, p, Fleet(p), Locations(p), 0, Fleet(p), 0) }
  function WaitVars(p: Problem): seq<VarDecl> { Grid(WaitVar, p, Fleet(p), Locations(p), 0, Fleet(p), 0) }

  /** All declared variables, in declaration order. */
  function Vars(p: Problem): seq<VarDecl>
  {
    ArcVars(p) + ServeVars(p) + TimeVars(p) + EarlyVars(p) + LateVars(p) + WaitVars(p)
  }

  /** The variables the builder declares: x for all pairs, y for non-depot
      locations only, and t, penB, penD, wait for every location. */
  predicate InModel(p: Problem, r: VarRef)
  {
    match r
    case X(v, i, j) => 0 <= v < Fleet(p) && 0 <= i < Locations(p) && 0 <= j < Locations(p)
    case Y(v, i) => 0 <= v < Fleet(p) && 1 <= i < Locations(p)
    case T(v, i) => 0 <= v < Fleet(p) && 0 <= i < Locations(p)
    case PenB(v, i) => 0 <= v < Fleet(p) && 0 <= i < Locations(p)
    case PenD(v, i) => 0 <= v < Fleet(p) && 0 <= i < Locations(p)
    case Wait(v, i) => 0 <= v < Fleet(p) && 0 <= i < Locations(p)
  }

  /** The declared upper bound of a variable. */
  function UpperBound(p: Problem, r: VarRef): int
  {
    match r
    case X(_, _, _) => 1
    case Y(_, _) => 1
    case T(_, _) => Horizon(p)
    case PenB(_, i) => Service(p, i)
    case PenD(_, i) => Service(p, i)
    case Wait(_, _) => MaxWait
  }

  function KindOf(r: VarRef): VarType
  {
    if r.X? || r.Y? then Binary else Integer
  }

  // ---------------------------------------------------------------- objective

  function ArcCost(pv: (Problem, nat), u: nat, i: nat, j: nat): Term { Term(Dist(pv.0, i, j), X(pv.1, i, j)) }

  /** Travel cost terms of vehicle v, over all ordered pairs (i, j). */
  function ArcTerms(p: Problem, v: nat): seq<Term>
  {
    Grid(ArcCost, (p, v), Locations(p), Locations(p), 0, Locations(p), 0)
  }

  /** Service time, early and late penalty and waiting terms of vehicle v at location i. */
  function ServiceOf(p: Problem, v: nat, i: nat): seq<Term>
  {
    [Term(Service(p, i), Y(v, i)), Term(Penalty(p, i), PenB(v, i)), Term(Penalty(p, i), PenD(v, i)), Term(1, Wait(v, i))]
  }

  /** ServiceOf for the locations 0 .. k-1, the depot included. */
  function ServiceTerms(p: Problem, v: nat, k: nat): seq<Term>
  {
    if k == 0 then [] else ServiceTerms(p, v, k - 1) + ServiceOf(p, v, k - 1)
  }

  /** Everything vehicle v contributes to the objective. */
  function VehicleCost(p: Problem, v: nat): LinExpr
  {
    Sum(ArcTerms(p, v) + ServiceTerms(p, v, Locations(p)))
  }

  /** The objective terms of vehicles 0 .. k-1. */
  function ObjectiveTerms(p: Problem, k: nat): seq<Term>
  {
    if k == 0 then [] else ObjectiveTerms(p, k - 1) + VehicleCost(p, k - 1).terms
  }

  /** The objective, to be minimised. */
  function Objective(p: Problem): LinExpr { Sum(ObjectiveTerms(p, Fleet(p))) }

  // ---------------------------------------------------------------- sums over arcs

  /** x[v, i, 0] + .. + x[v, i, k-1]: the arcs leaving i. */
  function OutArcs(v: int, i: int, k: nat): seq<Term> { seq(k, j => Term(1, X(v, i, j))) }

  /** x[v, 0, i] + .. + x[v, k-1, i]: the arcs entering i. */
  function InArcs(v: int, i: int, k: nat): seq<Term> { seq(k, j => Term(1, X(v, j, i))) }

  /** x[v, 0, 0] + .. + x[v, k-1, k-1]. */
  function SelfArcs(v: int, k: nat): seq<Term> { seq(k, i => Term(1, X(v, i, i))) }

  /** y[0, i] + .. + y[k-1, i]. */
  function ServedBy(i: int, k: nat): seq<Term> { seq(k, v => Term(1, Y(v, i))) }

  /** x[v, i, j] for the members j of s[..k] other than i, in order. */
  function PairRow(v: int, i: int, s: seq<int>, k: nat): seq<Term>
    requires k <= |s|
  {
    if k == 0 then []
    else PairRow(v, i, s, k - 1) + (if i != s[k - 1] then [Term(1, X(v, i, s[k - 1]))] else [])
  }

  /** PairRow for each of the members s[0] .. s[r-1] in turn. */
  function PairRows(v: int, s: seq<int>, r: nat): seq<Term>
    requires r <= |s|
  {
    if r == 0 then [] else PairRows(v, s, r - 1) + PairRow(v, s[r - 1], s, |s|)
  }

  // ---------------------------------------------------------------- constraints

  /** c2: the cost of vehicle v stays within the first vehicle's working time. */
  function Budget(p: Problem, v: nat): Constraint
  {
    Constraint(VehicleCost(p, v), LessEqual, Const(WorkingTime(p)), "c2")
  }

  /** c3: location i is served by exactly one vehicle. */
  function AssignOnce(p: Problem, i: int): Constraint
  {
    Constraint(Sum(ServedBy(i, Fleet(p))), Equal, Const(1), "c3")
  }

  /** c4: y[v, i] is the number of arcs of v entering i. */
  function LinkServed(p: Problem, v: int, i: int): Constraint
  {
    Constraint(Var(Y(v, i)), Equal, Sum(InArcs(v, i, Locations(p))), "c4")
  }

  /** c5: a vehicle serving i leaves the depot. */
  function StartAtDepot(p: Problem, v: int, i: int): Constraint
  {
    Constraint(Var(Y(v, i)), LessEqual, Sum(OutArcs(v, 0, Locations(p))), "c5")
  }

  /** c6: at most one arc of v enters the depot. */
  function ReturnOnce(p: Problem, v: int): Constraint
  {
    Constraint(Sum(InArcs(v, 0, Locations(p))), LessEqual, Const(1), "c6")
  }

  /** c7: no arc of v goes from a location to itself. */
  function NoSelfLoops(p: Problem, v: int): Constraint
  {
    Constraint(Sum(SelfArcs(v, Locations(p))), Equal, Const(0), "c7")
  }

  /** c8: as many arcs of v leave i as enter it. */
  function FlowBalance(p: Problem, v: int, i: int): Constraint
  {
    Constraint(Sum(OutArcs(v, i, Locations(p))), Equal, Sum(InArcs(v, i, Locations(p))), "c8")
  }

  /** c9: at most |s| - 1 arcs of v run between distinct members of s. */
  function SubTourCut(v: int, s: seq<int>): Constraint
  {
    Constraint(Sum(PairRows(v, s, |s|)), LessEqual, Const(|s| - 1), "c9")
  }

  /** c10: t[v,i] + d[i,j] + s[i] - M (1 - x[v,i,j]) <= t[v,j]. */
  function Arrival(p: Problem, v: int, i: int, j: int): Constraint
  {
    Constraint(LinExpr([Term(1, T(v, i)), Term(BigM, X(v, i, j))], Dist(p, i, j) + Service(p, i) - BigM),
               LessEqual, Var(T(v, j)), "c10")
  }

  /** c11: penB[v,i] >= bv[i] - t[v,i] - M (1 - y[v,i]). */
  function EarlyPenalty(p: Problem, v: int, i: int): Constraint
  {
    Constraint(Var(PenB(v, i)), GreaterEqual,
               LinExpr([Term(-1, T(v, i)), Term(BigM, Y(v, i))], Earliest(p, i) - BigM), "c11")
  }

  /** c12: penD[v,i] >= t[v,i] + s[i] - dv[i] - M (1 - y[v,i]). */
  function LatePenalty(p: Problem, v: int, i: int): Constraint
  {
    Constraint(Var(PenD(v, i)), GreaterEqual,
               LinExpr([Term(1, T(v, i)), Term(BigM, Y(v, i))], Service(p, i) - Latest(p, i) - BigM), "c12")
  }

  /** c13: wait[v,i] >= t[v,j] - s[i] - d[i,j] - t[v,i] - M (1 - x[v,i,j]). */
  function WaitSlack(p: Problem, v: int, i: int, j: int): Constraint
  {
    Constraint(Var(Wait(v, i)), GreaterEqual,
               LinExpr([Term(1, T(v, j)), Term(-1, T(v, i)), Term(BigM, X(v, i, j))],
                       -Service(p, i) - Dist(p, i, j) - BigM), "c13")
  }

  // Cells of the families; an index k stands for location k + 1 where the
  // builder's loop starts at 1.

  function BudgetCell(p: Problem, u: nat, w: nat, v: nat): Constraint { Budget(p, v) }
  function AssignCell(p: Problem, u: nat, w: nat, k: nat): Constraint { AssignOnce(p, k + 1) }
  function LinkCell(p: Problem, u: nat, v: nat, k: nat): Constraint { LinkServed(p, v, k + 1) }
  function StartCell(p: Problem, u: nat, v: nat, k: nat): Constraint { StartAtDepot(p, v, k + 1) }
  function ReturnCell(p: Problem, u: nat, w: nat, v: nat): Constraint { ReturnOnce(p, v) }
  function SelfLoopCell(p: Problem, u: nat, w: nat, v: nat): Constraint { NoSelfLoops(p, v) }
  function BalanceCell(p: Problem, u: nat, v: nat, i: nat): Constraint { FlowBalance(p, v, i) }
  function SubTourCell(subSets: seq<seq<int>>, u: nat, v: nat, k: nat): Constraint
  {
    SubTourCut(v, if k < |subSets| then subSets[k] else [])
  }
  function ArrivalCell(p: Problem, v: nat, i: nat, k: nat): Constraint { Arrival(p, v, i, k + 1) }
  function EarlyCell(p: Problem, u: nat, v: nat, k: nat): Constraint { EarlyPenalty(p, v, k + 1) }
  function LateCell(p: Problem, u: nat, v: nat, k: nat): Constraint { LatePenalty(p, v, k + 1) }
  function WaitCell(p: Problem, v: nat, i: nat, j: nat): Constraint { WaitSlack(p, v, i, j) }

  function BudgetFamily(p: Problem): seq<Constraint> { Grid(BudgetCell, p, 1, Fleet(p), 0, 0, Fleet(p)) }
  function AssignFamily(p: Problem): seq<Constraint>
  {
    Grid(AssignCell, p, 1, NonDepot(Locations(p)), 0, 0, NonDepot(Locations(p)))
  }
  function LinkFamily(p: Problem): seq<Constraint> { Grid(LinkCell, p, Fleet(p), NonDepot(Locations(p)), 0, Fleet(p), 0) }
  function StartFamily(p: Problem): seq<Constraint> { Grid(StartCell, p, Fleet(p), NonDepot(Locations(p)), 0, Fleet(p), 0) }
  function ReturnFamily(p: Problem): seq<Constraint> { Grid(ReturnCell, p, 1, Fleet(p), 0, 0, Fleet(p)) }
  function SelfLoopFamily(p: Problem): seq<Constraint> { Grid(SelfLoopCell, p, 1, Fleet(p), 0, 0, Fleet(p)) }
  function BalanceFamily(p: Problem): seq<Constraint> { Grid(BalanceCell, p, Fleet(p), Locations(p), 0, Fleet(p), 0) }
  function SubTourFamily(p: Problem, subSets: seq<seq<int>>): seq<Constraint>
  {
    Grid(SubTourCell, subSets, Fleet(p), |subSets|, 0, Fleet(p), 0)
  }
  function ArrivalFamily(p: Problem): seq<Constraint>
  {
    Grid(ArrivalCell, p, Locations(p), NonDepot(Locations(p)), Fleet(p), 0, 0)
  }
  function EarlyFamily(p: Problem): seq<Constraint> { Grid(EarlyCell, p, Fleet(p), NonDepot(Locations(p)), 0, Fleet(p), 0) }
  function LateFamily(p: Problem): seq<Constraint> { Grid(LateCell, p, Fleet(p), NonDepot(Locations(p)), 0, Fleet(p), 0) }
  function WaitFamily(p: Problem): seq<Constraint> { Grid(WaitCell, p, Locations(p), Locations(p), Fleet(p), 0, 0) }

  /** Every constraint of the model, in the order the builder adds them. */
  function Constraints(p: Problem, subSets: seq<seq<int>>): seq<Constraint>
  {
    AssignmentConstraints(p) + TourConstraints(p, subSets) + TimingConstraints(p)
  }

  /** c2 .. c5: budget, one server per customer, and how serving links to arcs. */
  function AssignmentConstraints(p: Problem): seq<Constraint>
  {
    BudgetFamily(p) + AssignFamily(p) + LinkFamily(p) + StartFamily(p)
  }

  /** c6 .. c9: the shape of each vehicle's tour. */
  function TourConstraints(p: Problem, subSets: seq<seq<int>>): seq<Constraint>
  {
    ReturnFamily(p) + SelfLoopFamily(p) + BalanceFamily(p) + SubTourFamily(p, subSets)
  }

  /** c10 .. c13: arrival times, time-window penalties and waiting. */
  function TimingConstraints(p: Problem): seq<Constraint>
  {
    ArrivalFamily(p) + EarlyFamily(p) + LateFamily(p) + WaitFamily(p)
  }

  /** An assignment the solver may return: within every declared bound and
      satisfying every constraint. */
  predicate Feasible(p: Problem, subSets: seq<seq<int>>, a: Assignment)
  {
    WithinBounds(a, Vars(p)) && SatisfiesAll(a, Constraints(p, subSets))
  }
}
