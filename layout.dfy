/** Which variables and constraints the model holds: exactly which indices each
    family covers, the bounds of every variable and how many of each there are. */
module Layout {
  import opened Seqs
  import opened Vrptw
  import opened Milp
  import opened Formulation

  // ---------------------------------------------------------------- variables

  /** The declarations are exactly one per variable of InModel, with lower
      bound 0, the family's upper bound and the family's type. */
  lemma VarsExactly(p: Problem, d: VarDecl)
    ensures d in Vars(p) <==> InModel(p, d.ref) && d == VarDecl(d.ref, 0, UpperBound(p, d.ref), KindOf(d.ref))
  {
    var V, n := Fleet(p), Locations(p);
    if d in Vars(p) {
      if d in ArcVars(p) {
        GridOnly(ArcVar, p, n, n, V, 0, 0, d);
      } else if d in ServeVars(p) {
        GridOnly(ServeVar, p, V, NonDepot(n), 0, V, 0, d);
      } else if d in TimeVars(p) {
        GridOnly(TimeVar, p, V, n, 0, V, 0, d);
      } else if d in EarlyVars(p) {
        GridOnly(EarlyVar, p, V, n, 0, V, 0, d);
      } else if d in LateVars(p) {
        GridOnly(LateVar, p, V, n, 0, V, 0, d);
      } else {
        assert d in WaitVars(p);
        GridOnly(WaitVar, p, V, n, 0, V, 0, d);
      }
    }
    if InModel(p, d.ref) && d == VarDecl(d.ref, 0, UpperBound(p, d.ref), KindOf(d.ref)) {
      match d.ref
      case X(v, i, j) =>
        GridHas(ArcVar, p, n, n, V, 0, 0, v, i, j);
        assert d == ArcVar(p, v, i, j);
      case Y(v, i) =>
        GridHas(ServeVar, p, V, NonDepot(n), 0, V, 0, 0, v, i - 1);
        assert d == ServeVar(p, 0, v, i - 1);
      case T(v, i) =>
        GridHas(TimeVar, p, V, n, 0, V, 0, 0, v, i);
        assert d == TimeVar(p, 0, v, i);
      case PenB(v, i) =>
        GridHas(EarlyVar, p, V, n, 0, V, 0, 0, v, i);
        assert d == EarlyVar(p, 0, v, i);
      case PenD(v, i) =>
        GridHas(LateVar, p, V, n, 0, V, 0, 0, v, i);
        assert d == LateVar(p, 0, v, i);
      case Wait(v, i) =>
        GridHas(WaitVar, p, V, n, 0, V, 0, 0, v, i);
        assert d == WaitVar(p, 0, v, i);
    }
  }

  /** A variable is declared exactly when its indices are in range for its family. */
  lemma DeclaredIffInModel(p: Problem, r: VarRef)
    ensures Declared(Vars(p), r) <==> InModel(p, r)
  {
    if Declared(Vars(p), r) {
      var d :| d in Vars(p) && d.ref == r;
      VarsExactly(p, d);
    }
    if InModel(p, r) {
      VarsExactly(p, VarDecl(r, 0, UpperBound(p, r), KindOf(r)));
    }
  }

  /** y[v, 0] is never declared: the service loop starts at location 1. */
  lemma DepotServeUndeclared(p: Problem, v: int)
    ensures !Declared(Vars(p), Y(v, 0))
  {
    DeclaredIffInModel(p, Y(v, 0));
  }

  /** Yet the objective has a term y[v, 0] * serviceTime[0] for every vehicle. */
  lemma ObjectiveMentionsDepotServe(p: Problem, v: nat)
    requires v < Fleet(p) && Locations(p) > 0
    ensures Term(Service(p, 0), Y(v, 0)) in Objective(p).terms
    ensures !Declared(Vars(p), Y(v, 0))
  {
    DepotServeUndeclared(p, v);
    ServiceTermsHas(p, v, Locations(p), 0);
    ObjectiveTermsHas(p, Fleet(p), v);
  }

  lemma {:induction false} ServiceTermsHas(p: Problem, v: nat, k: nat, i: nat)
    requires i < k
    ensures Term(Service(p, i), Y(v, i)) in ServiceTerms(p, v, k)
    decreases k
  {
    if i < k - 1 {
      ServiceTermsHas(p, v, k - 1, i);
    } else {
      assert ServiceOf(p, v, i)[0] == Term(Service(p, i), Y(v, i));
    }
  }

  lemma {:induction false} ObjectiveTermsHas(p: Problem, k: nat, v: nat)
    requires v < k
    ensures forall t :: t in VehicleCost(p, v).terms ==> t in ObjectiveTerms(p, k)
    decreases k
  {
    if v < k - 1 {
      ObjectiveTermsHas(p, k - 1, v);
    }
  }

  /** The objective terms of the first v vehicles are a prefix of those of the first k. */
  lemma {:induction false} ObjectiveTermsPrefix(p: Problem, v: nat, k: nat)
    requires v <= k
    ensures |ObjectiveTerms(p, v)| <= |ObjectiveTerms(p, k)|
    ensures ObjectiveTerms(p, k)[..|ObjectiveTerms(p, v)|] == ObjectiveTerms(p, v)
    decreases k
  {
    if v < k {
      ObjectiveTermsPrefix(p, v, k - 1);
      var before := ObjectiveTerms(p, k - 1);
      assert ObjectiveTerms(p, k) == before + VehicleCost(p, k - 1).terms;
      assert ObjectiveTerms(p, k)[..|before|] == before;
      assert ObjectiveTerms(p, k)[..|ObjectiveTerms(p, v)|] == before[..|ObjectiveTerms(p, v)|];
    }
  }

  /** The left side of vehicle v's c2 budget is, term by term, the block of the
      objective that vehicle v contributes, and its bound is the first vehicle's
      working time. */
  lemma BudgetIsObjectiveSlice(p: Problem, v: nat)
    requires v < Fleet(p)
    ensures var lo := |ObjectiveTerms(p, v)|;
            && lo + |Budget(p, v).lhs.terms| <= |Objective(p).terms|
            && Objective(p).terms[lo .. lo + |Budget(p, v).lhs.terms|] == Budget(p, v).lhs.terms
    ensures Budget(p, v).lhs.constant == 0 && Budget(p, v).sense == LessEqual
    ensures Budget(p, v).rhs == Const(WorkingTime(p))
  {
    ObjectiveTermsPrefix(p, v + 1, Fleet(p));
    var lo := |ObjectiveTerms(p, v)|;
    var block := VehicleCost(p, v).terms;
    assert ObjectiveTerms(p, v + 1) == ObjectiveTerms(p, v) + block;
    assert Objective(p).terms[..lo + |block|] == ObjectiveTerms(p, v) + block;
    assert Objective(p).terms[lo .. lo + |block|] == (ObjectiveTerms(p, v) + block)[lo..];
  }

  /** A value within the declared bounds lies between 0 and the family's upper bound. */
  lemma BoundsOfDeclared(p: Problem, a: Assignment, r: VarRef)
    requires WithinBounds(a, Vars(p))
    requires InModel(p, r)
    ensures 0 <= a(r) <= UpperBound(p, r)
  {
    VarsExactly(p, VarDecl(r, 0, UpperBound(p, r), KindOf(r)));
  }

  /** One variable per index tuple of each family. */
  lemma VarCount(p: Problem)
    ensures |ArcVars(p)| == Fleet(p) * (Locations(p) * Locations(p))
    ensures |ServeVars(p)| == Fleet(p) * NonDepot(Locations(p))
    ensures |TimeVars(p)| == |EarlyVars(p)| == |LateVars(p)| == |WaitVars(p)| == Fleet(p) * Locations(p)
  {
    var V, n := Fleet(p), Locations(p);
    GridLength(ArcVar, p, n, n, V, 0, 0);
    GridLength(ServeVar, p, V, NonDepot(n), 0, V, 0);
    GridLength(TimeVar, p, V, n, 0, V, 0);
    GridLength(EarlyVar, p, V, n, 0, V, 0);
    GridLength(LateVar, p, V, n, 0, V, 0);
    GridLength(WaitVar, p, V, n, 0, V, 0);
  }

  // ---------------------------------------------------------------- constraint families

  /** One c2 per vehicle. */
  lemma BudgetFamilyExactly(p: Problem, c: Constraint)
    ensures c in BudgetFamily(p) <==> exists v :: 0 <= v < Fleet(p) && c == Budget(p, v)
  {
    var V := Fleet(p);
    if c in BudgetFamily(p) {
      GridOnly(BudgetCell, p, 1, V, 0, 0, V, c);
      var x: nat, y: nat, z: nat :| Before(1, V, x, y, z, 0, 0, V) && c == BudgetCell(p, x, y, z);
      assert c == Budget(p, z);
    }
    if exists v :: 0 <= v < V && c == Budget(p, v) {
      var v :| 0 <= v < V && c == Budget(p, v);
      GridHas(BudgetCell, p, 1, V, 0, 0, V, 0, 0, v);
    }
  }

  /** One c3 per location 1 .. n-1. */
  lemma AssignFamilyExactly(p: Problem, c: Constraint)
    ensures c in AssignFamily(p) <==> exists i :: 1 <= i < Locations(p) && c == AssignOnce(p, i)
  {
    var W := NonDepot(Locations(p));
    if c in AssignFamily(p) {
      GridOnly(AssignCell, p, 1, W, 0, 0, W, c);
      var x: nat, y: nat, z: nat :| Before(1, W, x, y, z, 0, 0, W) && c == AssignCell(p, x, y, z);
      assert c == AssignOnce(p, z + 1);
    }
    if exists i :: 1 <= i < Locations(p) && c == AssignOnce(p, i) {
      var i :| 1 <= i < Locations(p) && c == AssignOnce(p, i);
      GridHas(AssignCell, p, 1, W, 0, 0, W, 0, 0, i - 1);
    }
  }

  /** The depot gets no c3 (as long as there is a vehicle to tell the rows apart). */
  lemma DepotNotAssigned(p: Problem)
    requires Fleet(p) > 0
    ensures AssignOnce(p, 0) !in AssignFamily(p)
  {
    AssignFamilyExactly(p, AssignOnce(p, 0));
    forall i | 1 <= i < Locations(p)
      ensures AssignOnce(p, 0) != AssignOnce(p, i)
    {
      assert ServedBy(0, Fleet(p))[0] != ServedBy(i, Fleet(p))[0];
    }
  }

  /** One c4 per vehicle and location 1 .. n-1. */
  lemma LinkFamilyExactly(p: Problem, c: Constraint)
    ensures c in LinkFamily(p) <==> exists v, i :: 0 <= v < Fleet(p) && 1 <= i < Locations(p) && c == LinkServed(p, v, i)
  {
    var V, W := Fleet(p), NonDepot(Locations(p));
    if c in LinkFamily(p) {
      GridOnly(LinkCell, p, V, W, 0, V, 0, c);
      var x: nat, y: nat, z: nat :| Before(V, W, x, y, z, 0, V, 0) && c == LinkCell(p, x, y, z);
      assert c == LinkServed(p, y, z + 1);
    }
    if exists v, i :: 0 <= v < V && 1 <= i < Locations(p) && c == LinkServed(p, v, i) {
      var v, i :| 0 <= v < V && 1 <= i < Locations(p) && c == LinkServed(p, v, i);
      GridHas(LinkCell, p, V, W, 0, V, 0, 0, v, i - 1);
    }
  }

  /** The depot gets no c4. */
  lemma DepotNotLinked(p: Problem, v: int)
    ensures LinkServed(p, v, 0) !in LinkFamily(p)
  {
    LinkFamilyExactly(p, LinkServed(p, v, 0));
    forall w, i | 1 <= i
      ensures LinkServed(p, v, 0) != LinkServed(p, w, i)
    {
      assert Var(Y(v, 0)).terms[0] != Var(Y(w, i)).terms[0];
    }
  }

  /** One c5 per vehicle and location 1 .. n-1. */
  lemma StartFamilyExactly(p: Problem, c: Constraint)
    ensures c in StartFamily(p) <==> exists v, i :: 0 <= v < Fleet(p) && 1 <= i < Locations(p) && c == StartAtDepot(p, v, i)
  {
    var V, W := Fleet(p), NonDepot(Locations(p));
    if c in StartFamily(p) {
      GridOnly(StartCell, p, V, W, 0, V, 0, c);
      var x: nat, y: nat, z: nat :| Before(V, W, x, y, z, 0, V, 0) && c == StartCell(p, x, y, z);
      assert c == StartAtDepot(p, y, z + 1);
    }
    if exists v, i :: 0 <= v < V && 1 <= i < Locations(p) && c == StartAtDepot(p, v, i) {
      var v, i :| 0 <= v < V && 1 <= i < Locations(p) && c == StartAtDepot(p, v, i);
      GridHas(StartCell, p, V, W, 0, V, 0, 0, v, i - 1);
    }
  }

  /** One c6 per vehicle. */
  lemma ReturnFamilyExactly(p: Problem, c: Constraint)
    ensures c in ReturnFamily(p) <==> exists v :: 0 <= v < Fleet(p) && c == ReturnOnce(p, v)
  {
    var V := Fleet(p);
    if c in ReturnFamily(p) {
      GridOnly(ReturnCell, p, 1, V, 0, 0, V, c);
      var x: nat, y: nat, z: nat :| Before(1, V, x, y, z, 0, 0, V) && c == ReturnCell(p, x, y, z);
      assert c == ReturnOnce(p, z);
    }
    if exists v :: 0 <= v < V && c == ReturnOnce(p, v) {
      var v :| 0 <= v < V && c == ReturnOnce(p, v);
      GridHas(ReturnCell, p, 1, V, 0, 0, V, 0, 0, v);
    }
  }

  /** One c7 per vehicle. */
  lemma SelfLoopFamilyExactly(p: Problem, c: Constraint)
    ensures c in SelfLoopFamily(p) <==> exists v :: 0 <= v < Fleet(p) && c == NoSelfLoops(p, v)
  {
    var V := Fleet(p);
    if c in SelfLoopFamily(p) {
      GridOnly(SelfLoopCell, p, 1, V, 0, 0, V, c);
      var x: nat, y: nat, z: nat :| Before(1, V, x, y, z, 0, 0, V) && c == SelfLoopCell(p, x, y, z);
      assert c == NoSelfLoops(p, z);
    }
    if exists v :: 0 <= v < V && c == NoSelfLoops(p, v) {
      var v :| 0 <= v < V && c == NoSelfLoops(p, v);
      GridHas(SelfLoopCell, p, 1, V, 0, 0, V, 0, 0, v);
    }
  }

  /** One c8 per vehicle and location, the depot included. */
  lemma BalanceFamilyExactly(p: Problem, c: Constraint)
    ensures c in BalanceFamily(p) <==> exists v, i :: 0 <= v < Fleet(p) && 0 <= i < Locations(p) && c == FlowBalance(p, v, i)
  {
    var V, n := Fleet(p), Locations(p);
    if c in BalanceFamily(p) {
      GridOnly(BalanceCell, p, V, n, 0, V, 0, c);
      var x: nat, y: nat, z: nat :| Before(V, n, x, y, z, 0, V, 0) && c == BalanceCell(p, x, y, z);
      assert c == FlowBalance(p, y, z);
    }
    if exists v, i :: 0 <= v < V && 0 <= i < n && c == FlowBalance(p, v, i) {
      var v, i :| 0 <= v < V && 0 <= i < n && c == FlowBalance(p, v, i);
      GridHas(BalanceCell, p, V, n, 0, V, 0, 0, v, i);
    }
  }

  /** One c9 per vehicle and stored subset. */
  lemma SubTourFamilyExactly(p: Problem, subSets: seq<seq<int>>, c: Constraint)
    ensures c in SubTourFamily(p, subSets) <==>
            exists v, k :: 0 <= v < Fleet(p) && 0 <= k < |subSets| && c == SubTourCut(v, subSets[k])
  {
    var V, W := Fleet(p), |subSets|;
    if c in SubTourFamily(p, subSets) {
      GridOnly(SubTourCell, subSets, V, W, 0, V, 0, c);
      var x: nat, y: nat, z: nat :| Before(V, W, x, y, z, 0, V, 0) && c == SubTourCell(subSets, x, y, z);
      assert c == SubTourCut(y, subSets[z]);
    }
    if exists v, k :: 0 <= v < V && 0 <= k < W && c == SubTourCut(v, subSets[k]) {
      var v, k :| 0 <= v < V && 0 <= k < W && c == SubTourCut(v, subSets[k]);
      GridHas(SubTourCell, subSets, V, W, 0, V, 0, 0, v, k);
    }
  }

  /** One c10 per vehicle, location i and location j >= 1. */
  lemma ArrivalFamilyExactly(p: Problem, c: Constraint)
    ensures c in ArrivalFamily(p) <==>
            exists v, i, j :: 0 <= v < Fleet(p) && 0 <= i < Locations(p) && 1 <= j < Locations(p) && c == Arrival(p, v, i, j)
  {
    var V, n, W := Fleet(p), Locations(p), NonDepot(Locations(p));
    if c in ArrivalFamily(p) {
      GridOnly(ArrivalCell, p, n, W, V, 0, 0, c);
      var x: nat, y: nat, z: nat :| Before(n, W, x, y, z, V, 0, 0) && c == ArrivalCell(p, x, y, z);
      assert c == Arrival(p, x, y, z + 1);
    }
    if exists v, i, j :: 0 <= v < V && 0 <= i < n && 1 <= j < n && c == Arrival(p, v, i, j) {
      var v, i, j :| 0 <= v < V && 0 <= i < n && 1 <= j < n && c == Arrival(p, v, i, j);
      GridHas(ArrivalCell, p, n, W, V, 0, 0, v, i, j - 1);
    }
  }

  /** One c11 per vehicle and location 1 .. n-1. */
  lemma EarlyFamilyExactly(p: Problem, c: Constraint)
    ensures c in EarlyFamily(p) <==> exists v, i :: 0 <= v < Fleet(p) && 1 <= i < Locations(p) && c == EarlyPenalty(p, v, i)
  {
    var V, W := Fleet(p), NonDepot(Locations(p));
    if c in EarlyFamily(p) {
      GridOnly(EarlyCell, p, V, W, 0, V, 0, c);
      var x: nat, y: nat, z: nat :| Before(V, W, x, y, z, 0, V, 0) && c == EarlyCell(p, x, y, z);
      assert c == EarlyPenalty(p, y, z + 1);
    }
    if exists v, i :: 0 <= v < V && 1 <= i < Locations(p) && c == EarlyPenalty(p, v, i) {
      var v, i :| 0 <= v < V && 1 <= i < Locations(p) && c == EarlyPenalty(p, v, i);
      GridHas(EarlyCell, p, V, W, 0, V, 0, 0, v, i - 1);
    }
  }

  /** One c12 per vehicle and location 1 .. n-1. */
  lemma LateFamilyExactly(p: Problem, c: Constraint)
    ensures c in LateFamily(p) <==> exists v, i :: 0 <= v < Fleet(p) && 1 <= i < Locations(p) && c == LatePenalty(p, v, i)
  {
    var V, W := Fleet(p), NonDepot(Locations(p));
    if c in LateFamily(p) {
      GridOnly(LateCell, p, V, W, 0, V, 0, c);
      var x: nat, y: nat, z: nat :| Before(V, W, x, y, z, 0, V, 0) && c == LateCell(p, x, y, z);
      assert c == LatePenalty(p, y, z + 1);
    }
    if exists v, i :: 0 <= v < V && 1 <= i < Locations(p) && c == LatePenalty(p, v, i) {
      var v, i :| 0 <= v < V && 1 <= i < Locations(p) && c == LatePenalty(p, v, i);
      GridHas(LateCell, p, V, W, 0, V, 0, 0, v, i - 1);
    }
  }

  /** One c13 per vehicle and ordered pair of locations. */
  lemma WaitFamilyExactly(p: Problem, c: Constraint)
    ensures c in WaitFamily(p) <==>
            exists v, i, j :: 0 <= v < Fleet(p) && 0 <= i < Locations(p) && 0 <= j < Locations(p) && c == WaitSlack(p, v, i, j)
  {
    var V, n := Fleet(p), Locations(p);
    if c in WaitFamily(p) {
      GridOnly(WaitCell, p, n, n, V, 0, 0, c);
      var x: nat, y: nat, z: nat :| Before(n, n, x, y, z, V, 0, 0) && c == WaitCell(p, x, y, z);
      assert c == WaitSlack(p, x, y, z);
    }
    if exists v, i, j :: 0 <= v < V && 0 <= i < n && 0 <= j < n && c == WaitSlack(p, v, i, j) {
      var v, i, j :| 0 <= v < V && 0 <= i < n && 0 <= j < n && c == WaitSlack(p, v, i, j);
      GridHas(WaitCell, p, n, n, V, 0, 0, v, i, j);
    }
  }

  /** How many constraints each family adds. */
  lemma FamilySizes(p: Problem, subSets: seq<seq<int>>)
    ensures |BudgetFamily(p)| == |ReturnFamily(p)| == |SelfLoopFamily(p)| == Fleet(p)
    ensures |AssignFamily(p)| == NonDepot(Locations(p))
    ensures |LinkFamily(p)| == |StartFamily(p)| == |EarlyFamily(p)| == |LateFamily(p)| == Fleet(p) * NonDepot(Locations(p))
    ensures |BalanceFamily(p)| == Fleet(p) * Locations(p)
    ensures |SubTourFamily(p, subSets)| == Fleet(p) * |subSets|
    ensures |ArrivalFamily(p)| == Fleet(p) * (Locations(p) * NonDepot(Locations(p)))
    ensures |WaitFamily(p)| == Fleet(p) * (Locations(p) * Locations(p))
  {
    var V, n, W := Fleet(p), Locations(p), NonDepot(Locations(p));
    GridLength(BudgetCell, p, 1, V, 0, 0, V);
    GridLength(ReturnCell, p, 1, V, 0, 0, V);
    GridLength(SelfLoopCell, p, 1, V, 0, 0, V);
    GridLength(AssignCell, p, 1, W, 0, 0, W);
    GridLength(LinkCell, p, V, W, 0, V, 0);
    GridLength(StartCell, p, V, W, 0, V, 0);
    GridLength(EarlyCell, p, V, W, 0, V, 0);
    GridLength(LateCell, p, V, W, 0, V, 0);
    GridLength(BalanceCell, p, V, n, 0, V, 0);
    GridLength(SubTourCell, subSets, V, |subSets|, 0, V, 0);
    GridLength(ArrivalCell, p, n, W, V, 0, 0);
    GridLength(WaitCell, p, n, n, V, 0, 0);
  }
}
