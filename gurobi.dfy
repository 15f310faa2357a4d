/** The model builder: the class that collects sub-tour candidate subsets and
    the method that declares the variables, the objective and constraints
    c2 .. c13 of the VRPTW model, one method per block of the builder. */
module GurobiVrp {
  import opened Seqs
  import opened Vrptw
  import opened SubTours
  import opened Milp
  import opened Formulation

  /** Every member of s that c9 pairs with a different member names a
      location, as indexing x[v, i, j] demands. */
  predicate PairsInRange(p: Problem, s: seq<int>)
  {
    forall q, l :: 0 <= q < |s| && 0 <= l < |s| && s[q] != s[l] ==> IsLocation(p, s[q]) && IsLocation(p, s[l])
  }

  /** When every id names a location, every subset GetCombination appends
      names locations only, so c9 never indexes x out of range. */
  lemma CombinationsInRange(p: Problem)
    requires IdsAreLocations(p)
    ensures forall s :: s in Combinations(NonDepotIds(p.customers)) ==> LocationsOnly(p, s) && PairsInRange(p, s)
  {
    var ids := NonDepotIds(p.customers);
    CombinationsShape(ids);
    forall s | s in Combinations(ids)
      ensures LocationsOnly(p, s) && PairsInRange(p, s)
    {
      var j :| 0 <= j < |Combinations(ids)| && Combinations(ids)[j] == s;
      forall q | 0 <= q < |s|
        ensures IsLocation(p, s[q])
      {
        assert s[q] in Combinations(ids)[j];
        NonDepotIdsMembers(p.customers, s[q]);
      }
    }
  }

  class GurobiVRP {
    /** Sub-tour candidate subsets; every GetCombination call appends to it. */
    var subSets: seq<seq<int>>

    constructor ()
      ensures subSets == []
    {
      subSets := [];
    }

    /** Appends, for every mask 1 .. 2^m - 1 over the m non-depot ids, the ids
        picked by the mask's zero-padded binary string when there are at least two. */
    method GetCombination(customers: seq<Customer>)
      modifies this
      ensures subSets == old(subSets) + Combinations(NonDepotIds(customers))
    {
      var list := CollectIds(customers);
      AddMaskSubsets(list);
    }

    /** The mask loop of GetCombination over the collected ids. */
    method AddMaskSubsets(list: seq<int>)
      modifies this
      ensures subSets == old(subSets) + Combinations(list)
    {
      var count := Pow2(|list|);
      var i := 1;
      while i <= count - 1
        invariant 1 <= i <= count
        invariant subSets == old(subSets) + SubsetsBelow(list, i)
      {
        AddMask(list, i);
        i := i + 1;
      }
      assert i == count;
    }

    /** One turn of the mask loop: the subset of mask i, kept when it has at
        least two ids. */
    method AddMask(list: seq<int>, i: nat)
      requires 1 <= i < Pow2(|list|)
      modifies this
      ensures var s := Pick(list, Bits(i, |list|));
        subSets == old(subSets) + (if |s| > 1 then [s] else [])
    {
      var subSet := MaskSubset(list, i);
      if |subSet| > 1 {
        subSets := subSets + [subSet];
      }
    }

    /** Builds the model for the problem after appending its sub-tour
        candidates; the solver run that follows is not modelled. */
    method GurobiTest(p: Problem) returns (model: MilpModel)
      requires WellFormed(p)
      requires Fleet(p) > 0 ==> forall s :: s in subSets + Combinations(NonDepotIds(p.customers)) ==> PairsInRange(p, s)
      modifies this
      ensures subSets == old(subSets) + Combinations(NonDepotIds(p.customers))
      ensures fresh(model)
      ensures model.vars == Vars(p)
      ensures model.objective == Objective(p)
      ensures model.constrs == Constraints(p, subSets)
    {
      GetCombination(p.customers);
      model := new MilpModel();
      AddVariables(model, p);
      AddObjective(model, p);
      AddConstraints(model, p, subSets);
    }
  }

  // ---------------------------------------------------------------- the three parts of the model

  /** The six variable blocks, in the builder's order. */
  method AddVariables(model: MilpModel, p: Problem)
    modifies model
    ensures model.vars == old(model.vars) + Vars(p)
    ensures model.constrs == old(model.constrs) && model.objective == old(model.objective)
  {
    AddArcVars(model, p);
    AddServeVars(model, p);
    assert model.vars == old(model.vars) + (ArcVars(p) + ServeVars(p));
    AddTimeVars(model, p);
    assert model.vars == old(model.vars) + (ArcVars(p) + ServeVars(p) + TimeVars(p));
    AddEarlyVars(model, p);
    assert model.vars == old(model.vars) + (ArcVars(p) + ServeVars(p) + TimeVars(p) + EarlyVars(p));
    AddLateVars(model, p);
    assert model.vars == old(model.vars) + (ArcVars(p) + ServeVars(p) + TimeVars(p) + EarlyVars(p) + LateVars(p));
    AddWaitVars(model, p);
  }

  /** Constraints c2 .. c13, in the builder's order. */
  method AddConstraints(model: MilpModel, p: Problem, subSets: seq<seq<int>>)
    requires WellFormed(p)
    requires Fleet(p) > 0 ==> forall s :: s in subSets ==> PairsInRange(p, s)
    modifies model
    ensures model.constrs == old(model.constrs) + Constraints(p, subSets)
    ensures model.vars == old(model.vars) && model.objective == old(model.objective)
  {
    AddAssignmentConstraints(model, p);
    AddTourConstraints(model, p, subSets);
    assert model.constrs == old(model.constrs) + (AssignmentConstraints(p) + TourConstraints(p, subSets));
    AddTimingConstraints(model, p);
  }

  /** c2 .. c5. */
  method AddAssignmentConstraints(model: MilpModel, p: Problem)
    requires WellFormed(p)
    modifies model
    ensures model.constrs == old(model.constrs) + AssignmentConstraints(p)
    ensures model.vars == old(model.vars) && model.objective == old(model.objective)
  {
    AddBudget(model, p);
    AddAssignOnce(model, p);
    assert model.constrs == old(model.constrs) + (BudgetFamily(p) + AssignFamily(p));
    AddLinkServed(model, p);
    assert model.constrs == old(model.constrs) + (BudgetFamily(p) + AssignFamily(p) + LinkFamily(p));
    AddStartAtDepot(model, p);
  }

  /** c6 .. c9. */
  method AddTourConstraints(model: MilpModel, p: Problem, subSets: seq<seq<int>>)
    requires Fleet(p) > 0 ==> forall s :: s in subSets ==> PairsInRange(p, s)
    modifies model
    ensures model.constrs == old(model.constrs) + TourConstraints(p, subSets)
    ensures model.vars == old(model.vars) && model.objective == old(model.objective)
  {
    AddReturnOnce(model, p);
    AddNoSelfLoops(model, p);
    assert model.constrs == old(model.constrs) + (ReturnFamily(p) + SelfLoopFamily(p));
    AddFlowBalance(model, p);
    assert model.constrs == old(model.constrs) + (ReturnFamily(p) + SelfLoopFamily(p) + BalanceFamily(p));
    AddSubTourCuts(model, p, subSets);
  }

  /** c10 .. c13. */
  method AddTimingConstraints(model: MilpModel, p: Problem)
    requires WellFormed(p)
    modifies model
    ensures model.constrs == old(model.constrs) + TimingConstraints(p)
    ensures model.vars == old(model.vars) && model.objective == old(model.objective)
  {
    AddArrival(model, p);
    AddEarlyPenalty(model, p);
    assert model.constrs == old(model.constrs) + (ArrivalFamily(p) + EarlyFamily(p));
    AddLatePenalty(model, p);
    assert model.constrs == old(model.constrs) + (ArrivalFamily(p) + EarlyFamily(p) + LateFamily(p));
    AddWaitSlack(model, p);
  }

  // ---------------------------------------------------------------- GetCombination's loops

  /** The ids of the customers other than the depot (id 0), in input order. */
  method CollectIds(customers: seq<Customer>) returns (list: seq<int>)
    ensures list == NonDepotIds(customers)
  {
    list := [];
    for c := 0 to |customers|
      invariant list == NonDepotIds(customers[..c])
    {
      assert customers[..c + 1][..c] == customers[..c];
      if customers[c].id != 0 {
        list := list + [customers[c].id];
      }
    }
    assert customers[..|customers|] == customers;
  }

  /** The subset for mask i: its binary numeral padded with '0' to one
      character per id, then the ids under the '1' characters. */
  method MaskSubset(list: seq<int>, i: nat) returns (subSet: seq<int>)
    requires 1 <= i < Pow2(|list|)
    ensures subSet == Pick(list, Bits(i, |list|))
  {
    var str := MaskString(i, |list|);
    MaskStringIsBits(i, |list|);
    subSet := PickByMask(list, str);
  }

  /** The ids at the positions where the mask string holds '1'. */
  method PickByMask(list: seq<int>, str: string) returns (subSet: seq<int>)
    requires |str| <= |list|
    ensures subSet == Pick(list, str)
  {
    subSet := [];
    for j := 0 to |str|
      invariant subSet == Pick(list, str[..j])
    {
      assert str[..j + 1][..j] == str[..j];
      if str[j] == '1' {
        subSet := subSet + [list[j]];
      }
    }
    assert str[..|str|] == str;
  }

  // ---------------------------------------------------------------- variables

  /** x[v, i, j] in [0, 1], binary. */
  method AddArcVars(model: MilpModel, p: Problem)
    modifies model
    ensures model.vars == old(model.vars) + ArcVars(p)
    ensures model.constrs == old(model.constrs) && model.objective == old(model.objective)
  {
    var V, n := Fleet(p), Locations(p);
    for v := 0 to V
      invariant model.vars == old(model.vars) + Grid(ArcVar, p, n, n, v, 0, 0)
      invariant model.constrs == old(model.constrs) && model.objective == old(model.objective)
    {
      for i := 0 to n
        invariant model.vars == old(model.vars) + Grid(ArcVar, p, n, n, v, i, 0)
        invariant model.constrs == old(model.constrs) && model.objective == old(model.objective)
      {
        for j := 0 to n
          invariant model.vars == old(model.vars) + Grid(ArcVar, p, n, n, v, i, j)
          invariant model.constrs == old(model.constrs) && model.objective == old(model.objective)
        {
          model.AddVar(VarDecl(X(v, i, j), 0, 1, Binary));
        }
      }
    }
  }

  /** y[v, i] in [0, 1], binary, for locations 1 .. n-1 only. */
  method AddServeVars(model: MilpModel, p: Problem)
    modifies model
    ensures model.vars == old(model.vars) + ServeVars(p)
    ensures model.constrs == old(model.constrs) && model.objective == old(model.objective)
  {
    var V, n := Fleet(p), Locations(p);
    var W := NonDepot(n);
    for v := 0 to V
      invariant model.vars == old(model.vars) + Grid(ServeVar, p, V, W, 0, v, 0)
      invariant model.constrs == old(model.constrs) && model.objective == old(model.objective)
    {
      var i := 1;
      while i < n
        invariant 1 <= i <= W + 1
        invariant model.vars == old(model.vars) + Grid(ServeVar, p, V, W, 0, v, i - 1)
        invariant model.constrs == old(model.constrs) && model.objective == old(model.objective)
      {
        model.AddVar(VarDecl(Y(v, i), 0, 1, Binary));
        i := i + 1;
      }
    }
  }

  /** t[v, i] in [0, dv of the depot], integer. */
  method AddTimeVars(model: MilpModel, p: Problem)
    modifies model
    ensures model.vars == old(model.vars) + TimeVars(p)
    ensures model.constrs == old(model.constrs) && model.objective == old(model.objective)
  {
    var V, n := Fleet(p), Locations(p);
    for v := 0 to V
      invariant model.vars == old(model.vars) + Grid(TimeVar, p, V, n, 0, v, 0)
      invariant model.constrs == old(model.constrs) && model.objective == old(model.objective)
    {
      for i := 0 to n
        invariant model.vars == old(model.vars) + Grid(TimeVar, p, V, n, 0, v, i)
        invariant model.constrs == old(model.constrs) && model.objective == old(model.objective)
      {
        model.AddVar(VarDecl(T(v, i), 0, p.customers[0].dv, Integer));
      }
    }
  }

  /** penB[v, i] in [0, serviceTime of i], integer. */
  method AddEarlyVars(model: MilpModel, p: Problem)
    modifies model
    ensures model.vars == old(model.vars) + EarlyVars(p)
    ensures model.constrs == old(model.constrs) && model.objective == old(model.objective)
  {
    var V, n := Fleet(p), Locations(p);
    for v := 0 to V
      invariant model.vars == old(model.vars) + Grid(EarlyVar, p, V, n, 0, v, 0)
      invariant model.constrs == old(model.constrs) && model.objective == old(model.objective)
    {
      for i := 0 to n
        invariant model.vars == old(model.vars) + Grid(EarlyVar, p, V, n, 0, v, i)
        invariant model.constrs == old(model.constrs) && model.objective == old(model.objective)
      {
        model.AddVar(VarDecl(PenB(v, i), 0, p.customers[i].serviceTime, Integer));
      }
    }
  }

  /** penD[v, i] in [0, serviceTime of i], integer. */
  method AddLateVars(model: MilpModel, p: Problem)
    modifies model
    ensures model.vars == old(model.vars) + LateVars(p)
    ensures model.constrs == old(model.constrs) && model.objective == old(model.objective)
  {
    var V, n := Fleet(p), Locations(p);
    for v := 0 to V
      invariant model.vars == old(model.vars) + Grid(LateVar, p, V, n, 0, v, 0)
      invariant model.constrs == old(model.constrs) && model.objective == old(model.objective)
    {
      for i := 0 to n
        invariant model.vars == old(model.vars) + Grid(LateVar, p, V, n, 0, v, i)
        invariant model.constrs == old(model.constrs) && model.objective == old(model.objective)
      {
        model.AddVar(VarDecl(PenD(v, i), 0, p.customers[i].serviceTime, Integer));
      }
    }
  }

  /** wait[v, i] in [0, 10000], integer. */
  method AddWaitVars(model: MilpModel, p: Problem)
    modifies model
    ensures model.vars == old(model.vars) + WaitVars(p)
    ensures model.constrs == old(model.constrs) && model.objective == old(model.objective)
  {
    var V, n := Fleet(p), Locations(p);
    for v := 0 to V
      invariant model.vars == old(model.vars) + Grid(WaitVar, p, V, n, 0, v, 0)
      invariant model.constrs == old(model.constrs) && model.objective == old(model.objective)
    {
      for i := 0 to n
        invariant model.vars == old(model.vars) + Grid(WaitVar, p, V, n, 0, v, i)
        invariant model.constrs == old(model.constrs) && model.objective == old(model.objective)
      {
        model.AddVar(VarDecl(Wait(v, i), 0, 10000, Integer));
      }
    }
  }
  // ---------------------------------------------------------------- objective and c2

  /** Appends vehicle v's travel terms d[i, j] x[v, i, j] and then, location
      by location, its service, penalty and waiting terms. */
  method AddVehicleCost(e: LinExpr, p: Problem, v: nat) returns (r: LinExpr)
    ensures r.terms == e.terms + VehicleCost(p, v).terms && r.constant == e.constant
  {
    var n := Locations(p);
    r := e;
    for i := 0 to n
      invariant r == LinExpr(e.terms + Grid(ArcCost, (p, v), n, n, 0, i, 0), e.constant)
    {
      for j := 0 to n
        invariant r == LinExpr(e.terms + Grid(ArcCost, (p, v), n, n, 0, i, j), e.constant)
      {
        r := AddTerm(r, Term(Dist(p, i, j), X(v, i, j)));
      }
    }
    for i := 0 to n
      invariant r == LinExpr(e.terms + ArcTerms(p, v) + ServiceTerms(p, v, i), e.constant)
    {
      r := AddTerm(r, Term(p.customers[i].serviceTime, Y(v, i)));
      r := AddTerm(r, Term(p.customers[i].penalty, PenB(v, i)));
      r := AddTerm(r, Term(p.customers[i].penalty, PenD(v, i)));
      r := AddTerm(r, Term(1, Wait(v, i)));
      assert ServiceTerms(p, v, i + 1) == ServiceTerms(p, v, i) + ServiceOf(p, v, i);
    }
  }

  /** The objective: every vehicle's cost in turn, minimised. */
  method AddObjective(model: MilpModel, p: Problem)
    modifies model
    ensures model.objective == Objective(p)
    ensures model.vars == old(model.vars) && model.constrs == old(model.constrs)
  {
    var expr := Const(0);
    for v := 0 to Fleet(p)
      invariant expr == Sum(ObjectiveTerms(p, v))
      invariant model.vars == old(model.vars) && model.constrs == old(model.constrs)
    {
      expr := AddVehicleCost(expr, p, v);
    }
    model.SetObjective(expr);
  }

  /** c2, one per vehicle. */
  method AddBudget(model: MilpModel, p: Problem)
    requires WellFormed(p)
    modifies model
    ensures model.constrs == old(model.constrs) + BudgetFamily(p)
    ensures model.vars == old(model.vars) && model.objective == old(model.objective)
  {
    var V := Fleet(p);
    for v := 0 to V
      invariant model.constrs == old(model.constrs) + Grid(BudgetCell, p, 1, V, 0, 0, v)
      invariant model.vars == old(model.vars) && model.objective == old(model.objective)
    {
      var sum := AddVehicleCost(Const(0), p, v);
      assert sum == VehicleCost(p, v) by {
        assert Const(0).terms + VehicleCost(p, v).terms == VehicleCost(p, v).terms;
      }
      model.AddConstr(Constraint(sum, LessEqual, Const(p.vehicles[0].wv), "c2"));
    }
  }

  // ---------------------------------------------------------------- sums

  /** y[0, i] + .. + y[V-1, i]. */
  method ServedSum(p: Problem, i: int) returns (sum: LinExpr)
    ensures sum == Sum(ServedBy(i, Fleet(p)))
  {
    sum := Const(0);
    for v := 0 to Fleet(p)
      invariant sum == Sum(ServedBy(i, v))
    {
      sum := AddTerm(sum, Term(1, Y(v, i)));
    }
  }

  /** x[v, 0, i] + .. + x[v, n-1, i]. */
  method InflowSum(p: Problem, v: int, i: int) returns (sum: LinExpr)
    ensures sum == Sum(InArcs(v, i, Locations(p)))
  {
    sum := Const(0);
    for j := 0 to Locations(p)
      invariant sum == Sum(InArcs(v, i, j))
    {
      sum := AddTerm(sum, Term(1, X(v, j, i)));
    }
  }

  /** x[v, i, 0] + .. + x[v, i, n-1]. */
  method OutflowSum(p: Problem, v: int, i: int) returns (sum: LinExpr)
    ensures sum == Sum(OutArcs(v, i, Locations(p)))
  {
    sum := Const(0);
    for j := 0 to Locations(p)
      invariant sum == Sum(OutArcs(v, i, j))
    {
      sum := AddTerm(sum, Term(1, X(v, i, j)));
    }
  }

  /** x[v, 0, 0] + .. + x[v, n-1, n-1]. */
  method SelfLoopSum(p: Problem, v: int) returns (sum: LinExpr)
    ensures sum == Sum(SelfArcs(v, Locations(p)))
  {
    sum := Const(0);
    for i := 0 to Locations(p)
      invariant sum == Sum(SelfArcs(v, i))
    {
      sum := AddTerm(sum, Term(1, X(v, i, i)));
    }
  }

  /** Both sums of c8, built in one pass over j. */
  method BalanceSums(p: Problem, v: int, i: int) returns (sumEnter: LinExpr, sumLeave: LinExpr)
    ensures sumEnter == Sum(OutArcs(v, i, Locations(p)))
    ensures sumLeave == Sum(InArcs(v, i, Locations(p)))
  {
    sumEnter := Const(0);
    sumLeave := Const(0);
    for j := 0 to Locations(p)
      invariant sumEnter == Sum(OutArcs(v, i, j))
      invariant sumLeave == Sum(InArcs(v, i, j))
    {
      sumEnter := AddTerm(sumEnter, Term(1, X(v, i, j)));
      sumLeave := AddTerm(sumLeave, Term(1, X(v, j, i)));
    }
  }

  /** x[v, i, j] for every ordered pair of members i != j of s. */
  method SubsetArcSum(v: int, s: seq<int>) returns (sum: LinExpr)
    ensures sum == Sum(PairRows(v, s, |s|))
  {
    sum := Const(0);
    for q := 0 to |s|
      invariant sum == Sum(PairRows(v, s, q))
    {
      ghost var done := PairRows(v, s, q);
      assert done + PairRow(v, s[q], s, 0) == done;
      for l := 0 to |s|
        invariant sum == Sum(done + PairRow(v, s[q], s, l))
      {
        if s[q] != s[l] {
          sum := AddTerm(sum, Term(1, X(v, s[q], s[l])));
          assert done + PairRow(v, s[q], s, l + 1) == done + PairRow(v, s[q], s, l) + [Term(1, X(v, s[q], s[l]))];
        }
      }
    }
  }

  // ---------------------------------------------------------------- c3 .. c9

  /** c3, one per location 1 .. n-1. */
  method AddAssignOnce(model: MilpModel, p: Problem)
    modifies model
    ensures model.constrs == old(model.constrs) + AssignFamily(p)
    ensures model.vars == old(model.vars) && model.objective == old(model.objective)
  {
    var n := Locations(p);
    var W := NonDepot(n);
    var i := 1;
    while i < n
      invariant 1 <= i <= W + 1
      invariant model.constrs == old(model.constrs) + Grid(AssignCell, p, 1, W, 0, 0, i - 1)
      invariant model.vars == old(model.vars) && model.objective == old(model.objective)
    {
      var sum := ServedSum(p, i);
      model.AddConstr(Constraint(sum, Equal, Const(1), "c3"));
      i := i + 1;
    }
  }

  /** c4, one per vehicle and location 1 .. n-1. */
  method AddLinkServed(model: MilpModel, p: Problem)
    modifies model
    ensures model.constrs == old(model.constrs) + LinkFamily(p)
    ensures model.vars == old(model.vars) && model.objective == old(model.objective)
  {
    var V, n := Fleet(p), Locations(p);
    var W := NonDepot(n);
    for v := 0 to V
      invariant model.constrs == old(model.constrs) + Grid(LinkCell, p, V, W, 0, v, 0)
      invariant model.vars == old(model.vars) && model.objective == old(model.objective)
    {
      var i := 1;
      while i < n
        invariant 1 <= i <= W + 1
        invariant model.constrs == old(model.constrs) + Grid(LinkCell, p, V, W, 0, v, i - 1)
        invariant model.vars == old(model.vars) && model.objective == old(model.objective)
      {
        var sum := InflowSum(p, v, i);
        model.AddConstr(Constraint(Var(Y(v, i)), Equal, sum, "c4"));
        i := i + 1;
      }
    }
  }

  /** c5, one per vehicle and location 1 .. n-1. */
  method AddStartAtDepot(model: MilpModel, p: Problem)
    modifies model
    ensures model.constrs == old(model.constrs) + StartFamily(p)
    ensures model.vars == old(model.vars) && model.objective == old(model.objective)
  {
    var V, n := Fleet(p), Locations(p);
    var W := NonDepot(n);
    for v := 0 to V
      invariant model.constrs == old(model.constrs) + Grid(StartCell, p, V, W, 0, v, 0)
      invariant model.vars == old(model.vars) && model.objective == old(model.objective)
    {
      var i := 1;
      while i < n
        invariant 1 <= i <= W + 1
        invariant model.constrs == old(model.constrs) + Grid(StartCell, p, V, W, 0, v, i - 1)
        invariant model.vars == old(model.vars) && model.objective == old(model.objective)
      {
        var sum := OutflowSum(p, v, 0);
        model.AddConstr(Constraint(Var(Y(v, i)), LessEqual, sum, "c5"));
        i := i + 1;
      }
    }
  }

  /** c6, one per vehicle. */
  method AddReturnOnce(model: MilpModel, p: Problem)
    modifies model
    ensures model.constrs == old(model.constrs) + ReturnFamily(p)
    ensures model.vars == old(model.vars) && model.objective == old(model.objective)
  {
    var V := Fleet(p);
    for v := 0 to V
      invariant model.constrs == old(model.constrs) + Grid(ReturnCell, p, 1, V, 0, 0, v)
      invariant model.vars == old(model.vars) && model.objective == old(model.objective)
    {
      var sum := InflowSum(p, v, 0);
      model.AddConstr(Constraint(sum, LessEqual, Const(1), "c6"));
    }
  }

  /** c7, one per vehicle. */
  method AddNoSelfLoops(model: MilpModel, p: Problem)
    modifies model
    ensures model.constrs == old(model.constrs) + SelfLoopFamily(p)
    ensures model.vars == old(model.vars) && model.objective == old(model.objective)
  {
    var V := Fleet(p);
    for v := 0 to V
      invariant model.constrs == old(model.constrs) + Grid(SelfLoopCell, p, 1, V, 0, 0, v)
      invariant model.vars == old(model.vars) && model.objective == old(model.objective)
    {
      var sum := SelfLoopSum(p, v);
      model.AddConstr(Constraint(sum, Equal, Const(0), "c7"));
    }
  }

  /** c8, one per vehicle and location. */
  method AddFlowBalance(model: MilpModel, p: Problem)
    modifies model
    ensures model.constrs == old(model.constrs) + BalanceFamily(p)
    ensures model.vars == old(model.vars) && model.objective == old(model.objective)
  {
    var V, n := Fleet(p), Locations(p);
    for v := 0 to V
      invariant model.constrs == old(model.constrs) + Grid(BalanceCell, p, V, n, 0, v, 0)
      invariant model.vars == old(model.vars) && model.objective == old(model.objective)
    {
      for i := 0 to n
        invariant model.constrs == old(model.constrs) + Grid(BalanceCell, p, V, n, 0, v, i)
        invariant model.vars == old(model.vars) && model.objective == old(model.objective)
      {
        var sumEnter, sumLeave := BalanceSums(p, v, i);
        model.AddConstr(Constraint(sumEnter, Equal, sumLeave, "c8"));
      }
    }
  }

  /** c9, one per vehicle and stored subset. */
  method AddSubTourCuts(model: MilpModel, p: Problem, subSets: seq<seq<int>>)
    requires Fleet(p) > 0 ==> forall s :: s in subSets ==> PairsInRange(p, s)
    modifies model
    ensures model.constrs == old(model.constrs) + SubTourFamily(p, subSets)
    ensures model.vars == old(model.vars) && model.objective == old(model.objective)
  {
    var V, K := Fleet(p), |subSets|;
    for v := 0 to V
      invariant model.constrs == old(model.constrs) + Grid(SubTourCell, subSets, V, K, 0, v, 0)
      invariant model.vars == old(model.vars) && model.objective == old(model.objective)
    {
      for k := 0 to K
        invariant model.constrs == old(model.constrs) + Grid(SubTourCell, subSets, V, K, 0, v, k)
        invariant model.vars == old(model.vars) && model.objective == old(model.objective)
      {
        var subSet := subSets[k];
        var sum := SubsetArcSum(v, subSet);
        model.AddConstr(Constraint(sum, LessEqual, Const(|subSet| - 1), "c9"));
      }
    }
  }

  // ---------------------------------------------------------------- c10 .. c13

  /** c10, one per vehicle, location i and location j >= 1. */
  method AddArrival(model: MilpModel, p: Problem)
    requires WellFormed(p)
    modifies model
    ensures model.constrs == old(model.constrs) + ArrivalFamily(p)
    ensures model.vars == old(model.vars) && model.objective == old(model.objective)
  {
    var V, n := Fleet(p), Locations(p);
    var W := NonDepot(n);
    for v := 0 to V
      invariant model.constrs == old(model.constrs) + Grid(ArrivalCell, p, n, W, v, 0, 0)
      invariant model.vars == old(model.vars) && model.objective == old(model.objective)
    {
      for i := 0 to n
        invariant model.constrs == old(model.constrs) + Grid(ArrivalCell, p, n, W, v, i, 0)
        invariant model.vars == old(model.vars) && model.objective == old(model.objective)
      {
        var j := 1;
        while j < n
          invariant 1 <= j <= W + 1
          invariant model.constrs == old(model.constrs) + Grid(ArrivalCell, p, n, W, v, i, j - 1)
          invariant model.vars == old(model.vars) && model.objective == old(model.objective)
        {
          var sum := LinExpr([Term(1, T(v, i)), Term(10000, X(v, i, j))],
                             p.distanceMatrix[i][j] + p.customers[i].serviceTime - 10000);
          model.AddConstr(Constraint(sum, LessEqual, Var(T(v, j)), "c10"));
          j := j + 1;
        }
      }
    }
  }

  /** c11, one per vehicle and location 1 .. n-1. */
  method AddEarlyPenalty(model: MilpModel, p: Problem)
    modifies model
    ensures model.constrs == old(model.constrs) + EarlyFamily(p)
    ensures model.vars == old(model.vars) && model.objective == old(model.objective)
  {
    var V, n := Fleet(p), Locations(p);
    var W := NonDepot(n);
    for v := 0 to V
      invariant model.constrs == old(model.constrs) + Grid(EarlyCell, p, V, W, 0, v, 0)
      invariant model.vars == old(model.vars) && model.objective == old(model.objective)
    {
      var i := 1;
      while i < n
        invariant 1 <= i <= W + 1
        invariant model.constrs == old(model.constrs) + Grid(EarlyCell, p, V, W, 0, v, i - 1)
        invariant model.vars == old(model.vars) && model.objective == old(model.objective)
      {
        var sum := LinExpr([Term(-1, T(v, i)), Term(10000, Y(v, i))], p.customers[i].bv - 10000);
        model.AddConstr(Constraint(Var(PenB(v, i)), GreaterEqual, sum, "c11"));
        i := i + 1;
      }
    }
  }

  /** c12, one per vehicle and location 1 .. n-1. */
  method AddLatePenalty(model: MilpModel, p: Problem)
    modifies model
    ensures model.constrs == old(model.constrs) + LateFamily(p)
    ensures model.vars == old(model.vars) && model.objective == old(model.objective)
  {
    var V, n := Fleet(p), Locations(p);
    var W := NonDepot(n);
    for v := 0 to V
      invariant model.constrs == old(model.constrs) + Grid(LateCell, p, V, W, 0, v, 0)
      invariant model.vars == old(model.vars) && model.objective == old(model.objective)
    {
      var i := 1;
      while i < n
        invariant 1 <= i <= W + 1
        invariant model.constrs == old(model.constrs) + Grid(LateCell, p, V, W, 0, v, i - 1)
        invariant model.vars == old(model.vars) && model.objective == old(model.objective)
      {
        var sum := LinExpr([Term(1, T(v, i)), Term(10000, Y(v, i))],
                           p.customers[i].serviceTime - p.customers[i].dv - 10000);
        model.AddConstr(Constraint(Var(PenD(v, i)), GreaterEqual, sum, "c12"));
        i := i + 1;
      }
    }
  }

  /** c13, one per vehicle and ordered pair of locations. */
  method AddWaitSlack(model: MilpModel, p: Problem)
    requires WellFormed(p)
    modifies model
    ensures model.constrs == old(model.constrs) + WaitFamily(p)
    ensures model.vars == old(model.vars) && model.objective == old(model.objective)
  {
    var V, n := Fleet(p), Locations(p);
    for v := 0 to V
      invariant model.constrs == old(model.constrs) + Grid(WaitCell, p, n, n, v, 0, 0)
      invariant model.vars == old(model.vars) && model.objective == old(model.objective)
    {
      for i := 0 to n
        invariant model.constrs == old(model.constrs) + Grid(WaitCell, p, n, n, v, i, 0)
        invariant model.vars == old(model.vars) && model.objective == old(model.objective)
      {
        for j := 0 to n
          invariant model.constrs == old(model.constrs) + Grid(WaitCell, p, n, n, v, i, j)
          invariant model.vars == old(model.vars) && model.objective == old(model.objective)
        {
          var sum := LinExpr([Term(1, T(v, j)), Term(-1, T(v, i)), Term(10000, X(v, i, j))],
                             -p.customers[i].serviceTime - p.distanceMatrix[i][j] - 10000);
          model.AddConstr(Constraint(Var(Wait(v, i)), GreaterEqual, sum, "c13"));
        }
      }
    }
  }
}
