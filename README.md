# VRPTW model builder (GurobiVRP), modelled in Dafny

`GurobiVRP` (`Depcos/Gurobi.cs`) builds a mixed-integer linear program for the
vehicle routing problem with time windows and hands it to the Gurobi solver.
This project models its two pieces of logic.

* **Sub-tour candidates.** `GetCombination` collects the ids of the non-depot
  customers. It walks every inclusion mask 1 .. 2^m − 1 and writes each mask
  as a zero-padded binary string, whose first character stands for the first
  id. Every subset with at least two members is appended to the field
  `subSets`, and the field is never cleared.
* **The formulation.** `gurobi_test` declares the variable families `x[v,i,j]`,
  `y[v,i]`, `t[v,i]`, `penB[v,i]`, `penD[v,i]` and `wait[v,i]` with their
  bounds and types. It builds the objective and appends the constraint
  families c2 .. c13 in source order.

Gurobi's own objects are replaced by plain data (module `Milp`):

* a variable is a `VarRef`;
* a linear expression is a sequence of (coefficient, variable) terms plus a
  constant;
* a constraint is a left side, a sense (≤, =, ≥), a right side and its
  family name `"c2"` .. `"c13"`;
* a model is a class `MilpModel` whose `vars`, `constrs` and `objective` the
  builder appends to or sets.

An evaluator `Satisfies` over integer assignments gives the constraints a
meaning, so the routing facts the formulation is meant to enforce can be
proved as lemmas.

Modules, one per file:

* `Seqs`: a lexicographic index grid for nested loops, and integer sums.
* `Vrptw`: the problem data.
* `SubTours`: the specification of `GetCombination`, with counting, order and
  membership lemmas.
* `Milp`: the solver-independent model and the evaluator.
* `Formulation`: every variable family, the objective and every constraint
  family, as functions of the problem.
* `Layout`: which indices each family covers, and how many members it has.
* `Meaning`: what each constraint says about an assignment.
* `Feasibility`: what every feasible assignment satisfies.
* `GurobiVrp`: the class `GurobiVRP` and the builder methods. Each builder is
  a loop proved against the `Formulation` functions.

Conventions taken by the model:

* The `Customer`, `Vehicle` and `VRPTW` classes are not part of this model.
  Their fields used here (`Id`, `ServiceTime`, `bv`, `dv`, `penalty`, `wv`,
  `distanceMatrix`) are taken as integers. The timing variables are integer
  variables, so integers fit them.
* c9 indexes `x` by customer id (`Depcos/Gurobi.cs:309`), so ids are
  meant to be location indices, with the depot at 0. `Vrptw.IdsAreLocations`
  states only what the indexing needs: every id is some location index
  0 .. n−1. It does not demand that a customer's id equal its own position.
  `CombinationsInRange` shows that under it every generated subset names
  locations only, so every c9 index is in range.
* The source validates nothing. Its array accesses would throw on a short
  distance matrix, on a missing first vehicle, or on a subset id outside
  0 .. n−1. Every one of these accesses sits inside a loop over the
  vehicles, so none of them happens when there is no vehicle. The builder's
  `requires` clauses (`WellFormed`, `PairsInRange`) are exactly those
  accesses, each guarded by "there is a vehicle". The two-dimensional
  `distanceMatrix` is a sequence of rows, each at least n long.
* `y[v,0]` is never declared: the loop at `Depcos/Gurobi.cs:93` starts at
  `i = 1`. The objective and c2 still add `ServiceTime[0] · y[v,0]`
  (`Depcos/Gurobi.cs:179`, `Depcos/Gurobi.cs:203`). The model keeps that term
  exactly as written, and the variable is not among the declarations. See
  `Layout.DepotServeUndeclared` and `Layout.ObjectiveMentionsDepotServe`. An
  assignment may give it any value, because no bound constrains it. What
  Gurobi itself does with the unset array entry is library behaviour and is
  not modelled.
* No check rejects an empty fleet. With no vehicle, c3 becomes `0 = 1` for
  every customer, so the model is infeasible
  (`Feasibility.NoFleetInfeasible`).
* `subSets` accumulates over calls, so `gurobi_test` emits c9 for every
  subset from every earlier call as well. `GurobiTest` states this with
  `old(subSets)`.

## Model

| member | source | states |
|---|---|---|
| GurobiVrp.GurobiVRP.constructor | Depcos/Gurobi.cs:13-20 | a new builder starts with no stored subsets |
| GurobiVrp.GurobiVRP.GetCombination | Depcos/Gurobi.cs:23-46 | the stored subsets become the old ones followed by exactly the combinations of the non-depot ids; nothing is removed or reordered |
| GurobiVrp.GurobiVRP.AddMaskSubsets | Depcos/Gurobi.cs:31-45 | the mask loop over 1 .. 2^m − 1 appends exactly the combinations of the given id list after the old contents |
| GurobiVrp.GurobiVRP.AddMask | Depcos/Gurobi.cs:33-44 | one mask appends the ids its binary string selects, if there are at least two, and appends nothing otherwise |
| GurobiVrp.CollectIds | Depcos/Gurobi.cs:25-30 | the collected list is the ids other than 0, in input order |
| GurobiVrp.MaskSubset | Depcos/Gurobi.cs:34-42 | the zero-padded binary string of mask i selects the ids at its '1' positions, the first character standing for the first id |
| GurobiVrp.PickByMask | Depcos/Gurobi.cs:35-42 | the inner loop over a string keeps list[j] exactly for the positions j holding '1', in order |
| GurobiVrp.CombinationsInRange | Depcos/Gurobi.cs:301-309 | when every id is a location index, every member of every generated subset is a valid index of x |
| GurobiVrp.GurobiVRP.GurobiTest | Depcos/Gurobi.cs:59-414 | runs GetCombination, then builds a fresh model whose declarations, objective and constraint list are exactly the formulation for the problem and all stored subsets |
| GurobiVrp.AddVariables | Depcos/Gurobi.cs:78-160 | appends the six variable families in source order and changes nothing else |
| GurobiVrp.AddArcVars | Depcos/Gurobi.cs:78-88 | declares binary x[v,i,j] for every vehicle and every ordered pair of locations, in loop order |
| GurobiVrp.AddServeVars | Depcos/Gurobi.cs:90-98 | declares binary y[v,i] only for customers i ≥ 1 |
| GurobiVrp.AddTimeVars | Depcos/Gurobi.cs:100-108 | declares integer t[v,i] for every location, bounded by the depot's latest time |
| GurobiVrp.AddEarlyVars | Depcos/Gurobi.cs:130-140 | declares integer penB[v,i] for every location, bounded by that location's service time |
| GurobiVrp.AddLateVars | Depcos/Gurobi.cs:142-151 | declares integer penD[v,i] for every location, bounded by that location's service time |
| GurobiVrp.AddWaitVars | Depcos/Gurobi.cs:153-160 | declares integer wait[v,i] for every location, bounded by 10000 |
| GurobiVrp.AddVehicleCost | Depcos/Gurobi.cs:167-184 | extends an expression by exactly one vehicle's distance, service, penalty and wait terms, leaving its constant alone |
| GurobiVrp.AddObjective | Depcos/Gurobi.cs:165-185 | the objective becomes the sum over vehicles of each vehicle's cost block |
| GurobiVrp.AddConstraints | Depcos/Gurobi.cs:187-414 | appends the constraint families c2 .. c13 in source order and changes nothing else |
| GurobiVrp.AddAssignmentConstraints | Depcos/Gurobi.cs:187-254 | appends c2, c3, c4 and c5 in that order |
| GurobiVrp.AddTourConstraints | Depcos/Gurobi.cs:256-314 | appends c6, c7, c8 and c9 in that order |
| GurobiVrp.AddTimingConstraints | Depcos/Gurobi.cs:316-414 | appends c10, c11, c12 and c13 in that order |
| GurobiVrp.AddBudget | Depcos/Gurobi.cs:187-210 | appends one c2 per vehicle, bounded by the first vehicle's working time |
| GurobiVrp.ServedSum | Depcos/Gurobi.cs:216-220 | the accumulated sum is y[0,i] + .. + y[V−1,i] |
| GurobiVrp.InflowSum | Depcos/Gurobi.cs:230-234 | the accumulated sum is the arcs of v entering i |
| GurobiVrp.OutflowSum | Depcos/Gurobi.cs:246-250 | the accumulated sum is the arcs of v leaving i |
| GurobiVrp.SelfLoopSum | Depcos/Gurobi.cs:272-276 | the accumulated sum is the self-arcs x[v,i,i] |
| GurobiVrp.BalanceSums | Depcos/Gurobi.cs:286-292 | `sumEnter` is the arcs leaving i and `sumLeave` the arcs entering i, as the source's indices say despite the names |
| GurobiVrp.SubsetArcSum | Depcos/Gurobi.cs:303-311 | the accumulated sum is x[v,i,j] over ordered pairs of members of s with different values, in loop order |
| GurobiVrp.AddAssignOnce | Depcos/Gurobi.cs:212-222 | appends one c3 per customer i ≥ 1 |
| GurobiVrp.AddLinkServed | Depcos/Gurobi.cs:224-238 | appends one c4 per vehicle and customer i ≥ 1 |
| GurobiVrp.AddStartAtDepot | Depcos/Gurobi.cs:240-254 | appends one c5 per vehicle and customer i ≥ 1 |
| GurobiVrp.AddReturnOnce | Depcos/Gurobi.cs:256-266 | appends one c6 per vehicle |
| GurobiVrp.AddNoSelfLoops | Depcos/Gurobi.cs:268-278 | appends one c7 per vehicle |
| GurobiVrp.AddFlowBalance | Depcos/Gurobi.cs:280-295 | appends one c8 per vehicle and location |
| GurobiVrp.AddSubTourCuts | Depcos/Gurobi.cs:297-314 | appends one c9 per vehicle and stored subset, vehicle-major |
| GurobiVrp.AddArrival | Depcos/Gurobi.cs:316-328 | appends one c10 per vehicle, location i and location j ≥ 1 |
| GurobiVrp.AddEarlyPenalty | Depcos/Gurobi.cs:375-387 | appends one c11 per vehicle and customer i ≥ 1 |
| GurobiVrp.AddLatePenalty | Depcos/Gurobi.cs:389-400 | appends one c12 per vehicle and customer i ≥ 1 |
| GurobiVrp.AddWaitSlack | Depcos/Gurobi.cs:402-414 | appends one c13 per vehicle and every ordered pair (i, j), the depot included |
| Vrptw.NonDepotIdsMembers | Depcos/Gurobi.cs:25-30 | an id is collected if and only if it is not 0 and some customer carries it |
| Vrptw.NonDepotIdsDistinct | Depcos/Gurobi.cs:25-30 | distinct customer ids give a list of collected ids without repeats |
| SubTours.MaskStringIsBits | Depcos/Gurobi.cs:34 | converting i to base 2 and left-padding with '0' to m characters gives the m-bit big-endian representation of i |
| SubTours.BitsRoundTrip | Depcos/Gurobi.cs:34 | reading the padded string back as a binary number gives i again |
| SubTours.BitsInjective | Depcos/Gurobi.cs:34 | different masks give different strings |
| SubTours.FirstCharIsTopBit | Depcos/Gurobi.cs:34 | the first character is '1' exactly when the mask's highest bit is set, the most significant bit standing for the first id |
| SubTours.BitsAreBinary | Depcos/Gurobi.cs:34 | the padded string holds only '0' and '1' |
| SubTours.ZeroBits | Depcos/Gurobi.cs:34 | mask 0 would be all '0' characters, which is why the loop starts at 1 |
| SubTours.PositionsSpec | Depcos/Gurobi.cs:36-42 | the selected positions are exactly the '1' characters, in increasing order |
| SubTours.PickAt | Depcos/Gurobi.cs:36-42 | the k-th picked id is the id at the k-th '1' position |
| SubTours.PickSpec | Depcos/Gurobi.cs:36-42 | the picked subset lists the ids at exactly the '1' positions, in input order |
| SubTours.PickSize | Depcos/Gurobi.cs:36-43 | the subset's size is the number of set bits of the mask |
| SubTours.PickMembers | Depcos/Gurobi.cs:40 | every picked id comes from the collected list |
| SubTours.PickContains | Depcos/Gurobi.cs:38-40 | with distinct ids, an id is picked if and only if its character is '1' |
| SubTours.PickInjective | Depcos/Gurobi.cs:34-42 | with distinct ids, different masks pick different subsets |
| SubTours.CountPairs | Depcos/Gurobi.cs:32-44 | among the masks below 2^m, exactly 2^m − 1 − m have at least two set bits |
| SubTours.CountNonEmpty | Depcos/Gurobi.cs:32-44 | among the masks below 2^m, exactly 2^m − 1 have at least one set bit |
| SubTours.KeptMasksCount | Depcos/Gurobi.cs:32-44 | the kept masks below k are as many as the masks below k with at least two set bits |
| SubTours.KeptMasksSpec | Depcos/Gurobi.cs:32-44 | the kept masks are exactly those in 1 .. k−1 with at least two set bits, in increasing order |
| SubTours.SubsetsFollowMasks | Depcos/Gurobi.cs:32-45 | the q-th stored subset is the one the q-th kept mask picks |
| SubTours.CombinationsCount | Depcos/Gurobi.cs:31-45 | one call appends exactly 2^m − 1 − m subsets |
| SubTours.CombinationsOfFewIds | Depcos/Gurobi.cs:43-44 | with at most one non-depot id nothing is appended |
| SubTours.CombinationsShape | Depcos/Gurobi.cs:32-45 | every appended subset comes from a mask in 1 .. 2^m − 1, has at least two members, all of them collected ids; the masks increase; every mask with two set bits or more is used |
| SubTours.CombinationsDistinct | Depcos/Gurobi.cs:34-44 | with distinct ids, no subset is appended twice |
| SubTours.PickThree | Depcos/Gurobi.cs:34-42 | over three ids, mask k selects the first id when bit 2 is set, the second for bit 1, the third for bit 0 |
| SubTours.ThreeCustomersLow | Depcos/Gurobi.cs:32-45 | over three ids, masks 1 .. 4 keep only {b, c} |
| SubTours.ThreeCustomers | Depcos/Gurobi.cs:23-46 | three non-depot ids a, b, c give exactly [b,c], [a,c], [a,b], [a,b,c], in that order |
| Layout.VarsExactly | Depcos/Gurobi.cs:78-160 | a declaration is present if and only if it names a variable of a declared family, with bounds 0 .. the family's upper bound and the family's type |
| Layout.DeclaredIffInModel | Depcos/Gurobi.cs:78-160 | a variable is declared if and only if its indices are in its family's loop ranges |
| Layout.DepotServeUndeclared | Depcos/Gurobi.cs:90-98 | no y[v,0] is ever declared |
| Layout.ObjectiveMentionsDepotServe | Depcos/Gurobi.cs:177-183 | the objective nevertheless carries ServiceTime[0] · y[v,0] for every vehicle, a variable that is not declared |
| Layout.ServiceTermsHas | Depcos/Gurobi.cs:177-183 | the service loop contributes ServiceTime[i] · y[v,i] for every location i it visits, 0 included |
| Layout.ObjectiveTermsHas | Depcos/Gurobi.cs:166-185 | every term of every vehicle's block is in the objective |
| Layout.ObjectiveTermsPrefix | Depcos/Gurobi.cs:166-185 | the objective is built vehicle by vehicle: the terms of the first v vehicles are a prefix of those of the first k |
| Layout.BudgetIsObjectiveSlice | Depcos/Gurobi.cs:166-209 | vehicle v's c2 left side is, term by term, the block of the objective that vehicle v contributes; its bound is the first vehicle's working time |
| Layout.BoundsOfDeclared | Depcos/Gurobi.cs:78-160 | within the declared bounds, every variable of a family lies between 0 and that family's upper bound |
| Layout.VarCount | Depcos/Gurobi.cs:78-160 | there are V·n² arc variables, V·(n−1) serve variables and V·n of each per-location family |
| Layout.BudgetFamilyExactly | Depcos/Gurobi.cs:187-210 | c2 holds exactly one budget constraint per vehicle |
| Layout.AssignFamilyExactly | Depcos/Gurobi.cs:212-222 | c3 holds exactly one constraint per customer i in 1 .. n−1 |
| Layout.DepotNotAssigned | Depcos/Gurobi.cs:214 | there is no c3 for the depot |
| Layout.LinkFamilyExactly | Depcos/Gurobi.cs:224-238 | c4 holds exactly one constraint per vehicle and customer i ≥ 1 |
| Layout.DepotNotLinked | Depcos/Gurobi.cs:228 | there is no c4 for the depot |
| Layout.StartFamilyExactly | Depcos/Gurobi.cs:240-254 | c5 holds exactly one constraint per vehicle and customer i ≥ 1 |
| Layout.ReturnFamilyExactly | Depcos/Gurobi.cs:256-266 | c6 holds exactly one constraint per vehicle |
| Layout.SelfLoopFamilyExactly | Depcos/Gurobi.cs:268-278 | c7 holds exactly one constraint per vehicle |
| Layout.BalanceFamilyExactly | Depcos/Gurobi.cs:280-295 | c8 holds exactly one constraint per vehicle and location, the depot included |
| Layout.SubTourFamilyExactly | Depcos/Gurobi.cs:297-314 | c9 holds exactly one cut per vehicle and stored subset |
| Layout.ArrivalFamilyExactly | Depcos/Gurobi.cs:316-328 | c10 holds exactly one constraint per vehicle, location i and location j ≥ 1 |
| Layout.EarlyFamilyExactly | Depcos/Gurobi.cs:375-387 | c11 holds exactly one constraint per vehicle and customer i ≥ 1 |
| Layout.LateFamilyExactly | Depcos/Gurobi.cs:389-400 | c12 holds exactly one constraint per vehicle and customer i ≥ 1 |
| Layout.WaitFamilyExactly | Depcos/Gurobi.cs:402-414 | c13 holds exactly one constraint per vehicle and ordered pair of locations |
| Layout.FamilySizes | Depcos/Gurobi.cs:187-414 | the sizes of the families: V for c2, c6 and c7; n−1 for c3; V·(n−1) for c4, c5, c11 and c12; V·n for c8; V·\|subSets\| for c9; V·n·(n−1) for c10; V·n² for c13 |
| Meaning.AssignOnceMeaning | Depcos/Gurobi.cs:212-222 | for binary y, c3 holds if and only if exactly one vehicle serves i |
| Meaning.LinkServedMeaning | Depcos/Gurobi.cs:224-238 | c4 holds if and only if y[v,i] equals the number of arcs of v entering i |
| Meaning.ServedMeansEnteredOnce | Depcos/Gurobi.cs:224-238 | for binary arcs, a served location is entered by exactly one arc of v, and an unserved one by none |
| Meaning.ServingVehicleLeavesDepot | Depcos/Gurobi.cs:240-254 | under c5, a vehicle serving any customer uses some arc out of the depot |
| Meaning.ReturnOnceMeaning | Depcos/Gurobi.cs:256-266 | for binary arcs, under c6 at most one arc of v enters the depot |
| Meaning.NoSelfLoopsMeaning | Depcos/Gurobi.cs:268-278 | for non-negative arcs, c7 holds if and only if no self-arc is used |
| Meaning.FlowBalanceMeaning | Depcos/Gurobi.cs:280-295 | c8 holds if and only if the arcs of v leaving i and entering i are equally many |
| Meaning.ServedMeansLeftOnce | Depcos/Gurobi.cs:224-295 | under c4 and c8, the arcs of v leaving i number y[v,i] |
| Meaning.PairRowExactly | Depcos/Gurobi.cs:306-310 | the inner loop's terms are exactly x[v,i,j] for the members j different from i |
| Meaning.PairRowsExactly | Depcos/Gurobi.cs:304-311 | the terms of a cut are exactly x[v,i,j] over pairs of members with different values |
| Meaning.PairRowsLength | Depcos/Gurobi.cs:304-311 | a cut over k distinct members has k·(k−1) terms |
| Meaning.CutForbidsClosedSubTour | Depcos/Gurobi.cs:297-314 | c9 is violated by any closed tour inside the subset, in which every member leaves to another member |
| Meaning.ArrivalOnUsedArc | Depcos/Gurobi.cs:316-328 | on a used arc, c10 holds if and only if the arrival at j is no earlier than the arrival at i plus travel plus service |
| Meaning.ArrivalOnUnusedArc | Depcos/Gurobi.cs:316-328 | on an unused arc, c10 is relaxed by exactly 10000 |
| Meaning.EarlyOnServed | Depcos/Gurobi.cs:375-387 | for a served customer, c11 holds if and only if penB covers the earliness bv − t |
| Meaning.EarlyOnUnserved | Depcos/Gurobi.cs:375-387 | for an unserved customer, c11 is relaxed by exactly 10000 |
| Meaning.LateOnServed | Depcos/Gurobi.cs:389-400 | for a served customer, c12 holds if and only if penD covers the lateness t + service − dv |
| Meaning.LateOnUnserved | Depcos/Gurobi.cs:389-400 | for an unserved customer, c12 is relaxed by exactly 10000 |
| Meaning.WaitOnUsedArc | Depcos/Gurobi.cs:402-414 | on a used arc, c13 holds if and only if wait[v,i] covers the idle time before j |
| Meaning.WaitOnUnusedArc | Depcos/Gurobi.cs:402-414 | on an unused arc, c13 is relaxed by exactly 10000 |
| Meaning.ArcTermsValue | Depcos/Gurobi.cs:169-175 | the distance loop evaluates to the total distance of the arcs v uses |
| Meaning.ServiceTermsValue | Depcos/Gurobi.cs:177-183 | the service loop evaluates to service, penalties and wait summed over the locations |
| Meaning.VehicleCostValue | Depcos/Gurobi.cs:167-184 | a vehicle's block evaluates to that vehicle's route cost |
| Meaning.ObjectiveTermsValue | Depcos/Gurobi.cs:166-184 | the first k blocks evaluate to the cost of the first k vehicles |
| Meaning.ObjectiveValue | Depcos/Gurobi.cs:165-185 | the objective evaluates to the cost of the whole fleet |
| Meaning.BudgetMeaning | Depcos/Gurobi.cs:187-210 | c2 holds for v if and only if v's route cost is within the working time |
| Meaning.BudgetBoundsObjective | Depcos/Gurobi.cs:165-210 | when every budget holds, the objective is at most V times the working time |
| Feasibility.ArcBounds | Depcos/Gurobi.cs:78-88 | within bounds, every arc variable is 0 or 1 |
| Feasibility.FeasibleServedOnce | Depcos/Gurobi.cs:212-222 | every feasible solution serves each customer by exactly one vehicle |
| Feasibility.FeasibleVisit | Depcos/Gurobi.cs:224-295 | in a feasible solution a customer's vehicle-v in-arcs and out-arcs both number y[v,i]: one in-arc when served, none otherwise |
| Feasibility.FeasibleLeavesDepot | Depcos/Gurobi.cs:240-254 | in a feasible solution a vehicle serving a customer uses an arc out of the depot |
| Feasibility.FeasibleReturnOnce | Depcos/Gurobi.cs:256-266 | in a feasible solution each vehicle enters the depot at most once |
| Feasibility.FeasibleNoSelfLoops | Depcos/Gurobi.cs:268-278 | in a feasible solution no self-arc is used |
| Feasibility.FeasibleFlowBalance | Depcos/Gurobi.cs:280-295 | in a feasible solution flow is conserved at every location |
| Feasibility.FeasibleNoClosedSubTour | Depcos/Gurobi.cs:297-314 | in a feasible solution a vehicle's arcs between different members of a stored subset number at most its size minus one, so no vehicle closes a tour inside it |
| Feasibility.FeasibleArrivalOrder | Depcos/Gurobi.cs:316-328 | in a feasible solution, along a used arc into a customer, the arrival times respect travel and service |
| Feasibility.FeasiblePenalties | Depcos/Gurobi.cs:375-400 | in a feasible solution a served customer's earliness and lateness are covered by penB and penD, which never exceed the service time |
| Feasibility.FeasibleWait | Depcos/Gurobi.cs:402-414 | in a feasible solution wait covers the idle time on each used arc and stays within 0 .. 10000 |
| Feasibility.FeasibleWithinBudget | Depcos/Gurobi.cs:187-210 | in a feasible solution every route's cost is within the working time, and the objective is at most V times it |
| Feasibility.NoFleetInfeasible | Depcos/Gurobi.cs:212-222 | with no vehicle and at least one customer, no assignment is feasible |
| Feasibility.ArrivalRelaxed | Depcos/Gurobi.cs:316-328 | when times fit the horizon and 10000 covers it, c10 cannot bind on an unused arc |
| Feasibility.EarlyRelaxed | Depcos/Gurobi.cs:375-387 | when bv ≤ 10000, c11 cannot bind for an unserved customer |
| Feasibility.LateRelaxed | Depcos/Gurobi.cs:389-400 | when 10000 covers the horizon, c12 cannot bind for an unserved customer |
| Feasibility.WaitRelaxed | Depcos/Gurobi.cs:402-414 | when 10000 covers the horizon, c13 cannot bind on an unused arc |

## Left out

- The Gurobi environment and its lifecycle (`Depcos/Gurobi.cs:14-20`, `Depcos/Gurobi.cs:64-67`, `Depcos/Gurobi.cs:163`, `Depcos/Gurobi.cs:419-433`) is left out: the static `GRBEnv`, the output flag, the ten-minute time limit, `Update`, `Optimize`, `GetVars`, `ObjVal`, `Runtime` and `Dispose`. They are calls into a solver library. The solver's verdict, the objective value and the run time it returns cannot be modelled. `GurobiTest` therefore returns the built model instead of the `(ObjVal, Runtime)` pair.
- The reuse of the static environment after it is disposed is resource handling and is left out.
- `printSubSets` (`Depcos/Gurobi.cs:48-58`) is console output only.
- The commented-out blocks (`Depcos/Gurobi.cs:110-128`, `Depcos/Gurobi.cs:330-373`) carry no semantics.
- The variable name strings carry no semantics. The constraint family names `"c2"` .. `"c13"` are kept.
- Floating point is not modelled. `Math.Pow(2, m)` is the integer 2^m. The double bounds, coefficients and right-hand sides are integers.
- The 32-bit loop counter `i` in `GetCombination` is not modelled; the model uses unbounded integers. With 31 or more non-depot customers, 2^m − 1 is at least the largest `int`. The condition `i <= count - 1` can then no longer fail, and `i` wraps around instead of ending the loop.
- Exceptions are not modelled. The index errors the source would raise on malformed input are ruled out by preconditions instead.
- What the solver does with the undeclared `y[v,0]` terms is not modelled. The model keeps them as free, unbounded variables.
