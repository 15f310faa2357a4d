/** Solver-side data the builder hands to the MILP solver, with the solver's
    handles replaced by plain values: variable references, linear expressions,
    constraints, variable declarations with bounds, and an evaluator of
    constraints under an integer assignment. */
module Milp {

  /** The six variable families, indexed by vehicle and location(s). */
  datatype VarRef =
    | X(v: int, i: int, j: int)   // vehicle v drives from i to j
    | Y(v: int, i: int)           // vehicle v serves location i
    | T(v: int, i: int)           // arrival time of v at i
    | PenB(v: int, i: int)        // penalty for arriving before the window
    | PenD(v: int, i: int)        // penalty for arriving after the window
    | Wait(v: int, i: int)        // waiting time of v at i

  datatype VarType = Binary | Integer

  /** One AddVar call: the variable, its lower and upper bound and its type. */
  datatype VarDecl = VarDecl(ref: VarRef, lb: int, ub: int, vtype: VarType)

  datatype Term = Term(coef: int, ref: VarRef)

  /** Sum of the terms plus a constant. */
  datatype LinExpr = LinExpr(terms: seq<Term>, constant: int)

  datatype Sense = LessEqual | Equal | GreaterEqual

  /** One AddConstr call: lhs sense rhs, with the constraint's name. */
  datatype Constraint = Constraint(lhs: LinExpr, sense: Sense, rhs: LinExpr, name: string)

  /** An integer value for every variable. */
  type Assignment = VarRef -> int

  /** The expression consisting of one variable. */
  function Var(r: VarRef): LinExpr { LinExpr([Term(1, r)], 0) }

  /** The constant expression c. */
  function Const(c: int): LinExpr { LinExpr([], c) }

  /** e with one more term, as `expr += term` builds it. */
  function AddTerm(e: LinExpr, t: Term): LinExpr { LinExpr(e.terms + [t], e.constant) }

  function EvalTerms(a: Assignment, ts: seq<Term>): int
  {
    if ts == [] then 0 else EvalTerms(a, ts[..|ts| - 1]) + ts[|ts| - 1].coef * a(ts[|ts| - 1].ref)
  }

  function Eval(a: Assignment, e: LinExpr): int
  {
    EvalTerms(a, e.terms) + e.constant
  }

  predicate Satisfies(a: Assignment, c: Constraint)
  {
    match c.sense
    case LessEqual => Eval(a, c.lhs) <= Eval(a, c.rhs)
    case Equal => Eval(a, c.lhs) == Eval(a, c.rhs)
    case GreaterEqual => Eval(a, c.lhs) >= Eval(a, c.rhs)
  }

  predicate SatisfiesAll(a: Assignment, cs: seq<Constraint>)
  {
    forall c :: c in cs ==> Satisfies(a, c)
  }

  /** Every declared variable takes a value within its bounds. */
  predicate WithinBounds(a: Assignment, ds: seq<VarDecl>)
  {
    forall d :: d in ds ==> d.lb <= a(d.ref) <= d.ub
  }

  predicate Declared(ds: seq<VarDecl>, r: VarRef)
  {
    exists d :: d in ds && d.ref == r
  }

  lemma {:induction false} EvalTermsAppend(a: Assignment, s: seq<Term>, t: seq<Term>)
    ensures EvalTerms(a, s + t) == EvalTerms(a, s) + EvalTerms(a, t)
    decreases |t|
  {
    if t != [] {
      assert (s + t)[..|s + t| - 1] == s + t[..|t| - 1];
      EvalTermsAppend(a, s, t[..|t| - 1]);
    } else {
      assert s + t == s;
    }
  }

  lemma EvalVar(a: Assignment, r: VarRef)
    ensures Eval(a, Var(r)) == a(r)
  {
    var ts := [Term(1, r)];
    assert ts[..0] == [];
    assert EvalTerms(a, ts) == EvalTerms(a, []) + 1 * a(r);
  }

  lemma EvalTermsTwo(a: Assignment, t0: Term, t1: Term)
    ensures EvalTerms(a, [t0, t1]) == t0.coef * a(t0.ref) + t1.coef * a(t1.ref)
  {
    assert [t0][..0] == [];
    assert EvalTerms(a, [t0]) == t0.coef * a(t0.ref);
    assert [t0, t1][..1] == [t0];
  }

  lemma EvalTermsThree(a: Assignment, t0: Term, t1: Term, t2: Term)
    ensures EvalTerms(a, [t0, t1, t2]) == t0.coef * a(t0.ref) + t1.coef * a(t1.ref) + t2.coef * a(t2.ref)
  {
    EvalTermsTwo(a, t0, t1);
    assert [t0, t1, t2][..2] == [t0, t1];
  }

  lemma EvalTermsFour(a: Assignment, t0: Term, t1: Term, t2: Term, t3: Term)
    ensures EvalTerms(a, [t0, t1, t2, t3])
            == t0.coef * a(t0.ref) + t1.coef * a(t1.ref) + t2.coef * a(t2.ref) + t3.coef * a(t3.ref)
  {
    EvalTermsThree(a, t0, t1, t2);
    assert [t0, t1, t2, t3][..3] == [t0, t1, t2];
  }

  /** The solver's model object: the builder adds variables and constraints and
      sets the objective (to be minimised). */
  class MilpModel {
    var vars: seq<VarDecl>
    var constrs: seq<Constraint>
    var objective: LinExpr

    constructor ()
      ensures vars == [] && constrs == [] && objective == Const(0)
    {
      vars := [];
      constrs := [];
      objective := Const(0);
    }

    method AddVar(d: VarDecl)
      modifies this
      ensures vars == old(vars) + [d]
      ensures constrs == old(constrs) && objective == old(objective)
    {
      vars := vars + [d];
    }

    method AddConstr(c: Constraint)
      modifies this
      ensures constrs == old(constrs) + [c]
      ensures vars == old(vars) && objective == old(objective)
    {
      constrs := constrs + [c];
    }

    method SetObjective(e: LinExpr)
      modifies this
      ensures objective == e
      ensures vars == old(vars) && constrs == old(constrs)
    {
      objective := e;
    }
  }
}
