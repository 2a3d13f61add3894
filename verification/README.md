# A verified model of fhk and of the branching simulator

The repository is a branching simulator around a computational-graph solver, fhk. This project models the two parts
whose correctness is hard to see from the code, and proves what they are for.

**fhk: graph builder, pruner, chain solver.** A graph has variables and models. A model instance costs `k + c*S`, where
`S` sums the penalties of its failing checks and the costs of its computed parameters (the largest cost over the mapped
instances); a variable instance costs as much as its cheapest candidate model instance. `Graph.dfy` states these
min/sum/max equations. A *truth* is any assignment of costs that satisfies them (`Graphs.IsSolution`). Every well formed
problem has one, cyclic or not (`Fixpoint.dfy`), and an acyclic one has only one (`Uniqueness.dfy`).

- `Build.dfy` builds the edges of both directions from the model definitions, and says edge by edge which definition they
  come from; `Layout.dfy` places their blocks in memory, and `FromDef.dfy` proves that the built graph has all that pruner
  and solver rely on. `DefSpec.dfy` states the cost equations on the definitions alone, without graph, edges or lists of
  instances, and proves that graphs agree; `DefAnswer.dfy` does the same for values, and goes from definitions to answers.
- `Heap.dfy`, `Bounds.dfy`, `Fronts.dfy`, `Selection.dfy`, `Pruner.dfy` model the pruner: binary heap, two-colour
  propagation of cost bounds, selection. Its bounds are exactly the least derivation costs of each colour, and the
  selection is exactly what the retained nodes lead to under the rule for choosing models. `Obtain.dfy` says from the
  graph and the flags alone what can be had at all, and so when a request is refused. `BoundEquation.dfy` writes out what
  the bounds add up, and `Reached.dfy` proves them tight: in a world where all checks fail, true costs are the black bounds.
- `Solver*.dfy`, `Depth.dfy`, `Values.dfy` and `Closure.dfy` model the chain solver: branch and bound on an explicit work
  stack, with memoised lower bounds (`Scan.dfy`: which candidate is taken), and the computation of values along chains.
  The class invariant holds in every state:
  every stored cost is a lower bound of *every* truth, chained costs are exact, marked variables are those on the stack,
  the chain relation is acyclic, no model's bound has decreased since any earlier state, and no variable's bound but while
  the variable is being solved (`SolverPast.dfy`). Two frames may work on the same model; `SolverTwice.dfy` proves that the
  upper one never raises it above the threshold of the lower one.
  `SelectChain` terminates on every graph, cyclic or not: `Closure.ClosureExists` shows that only finitely many costs below
  the limit can ever be stored. It gives up only on a cycle, or on a chain of dependencies that exceeds the stacks.
- `Optimum.dfy`, `Sums.dfy`, `Rank.dfy`, `PrunedGraph.dfy`, `Rebuild.dfy`, `Outcomes.dfy`, `EndToEnd.dfy` put these
  together: prune, build what is left, solve from the gray bounds, and the answer is the true cost in the whole graph; each
  way of ending without an answer has its exact condition on the graph and the flags, or a reason that the graph gives.
  `Plan.dfy` says what evaluation along cheapest chains is without mentioning the solver, and `LeftValue.dfy` proves that
  the value computed in the pruned graph is that of the whole. `Attain.dfy` proves exactly when pessimistic bounds survive.
- `Bitmap.dfy` and `Subset.dfy` are the bit tricks below: clearing runs of bits by addition with carry, interval iterators
  that stop because of a carry, interval lists. `Given.dfy` keeps the bitmaps of all given variables, some of them shared.
  `Arena.dfy` is the allocator.

**Simulator and control compiler.** `Sim.dfy` models the frame stack with snapshots of the stack region, and `SimRun.dfy`
whole runs of it, with what each operation does to the state that user code sees; `Control.dfy` the compiler from
all/any/primitive trees to continuation code, `Denote.dfy` what a tree does, tree by tree; `Machine.dfy` its execution
on a shared, copied call stack over the simulator, and with `Nesting.dfy` how much room a tree needs to run without an
error; `Memoize.dfy` the memoizing wrapper whose cache level lives in savepointed memory, and `MemoRun.dfy` whole runs of
it.

Costs are exact nonnegative reals with infinity. The outside world (group shapes, user maps, guards, values of given
variables, results of models, effects of primitives) is a parameter.

Where code and documentation differ the code is followed. In eight places the code does not do what its callers may
expect. Each has its condition, and an input or the whole class of inputs that fail:

- *A root that a failed check has settled* (`src/fhk/solve.c:788`). A variable without a chain counts as done, so the chain
  phase passes it over and its value is then computed along a chain that it does not have. In a batch that gets to the
  values, this happens exactly if some root ends up stuck, and only if a root costs at least the limit
  (`Solver.ChainSolver.Solve`); `StuckRoots.TwoRoots` is a batch of two roots on a fresh solver.
- *A selected model that checks a pruned variable* (`src/frontend/fhk/transform.lua:315-332`): the pruned graph cannot be
  built, exactly under `Outcomes.LosesCheck` (`EndToEnd.PruneAndSolve`); `SkippedChecks.SkippedCheck` is a graph of two
  variables.
- *Free models in a cycle* (`src/fhk/prune.c:292-297`): a pessimistic bound need not survive selection. All of them do
  exactly if the variables can be ordered so that each selected one has a selected model that returns it at its bound and
  takes, at the same bound, only earlier ones (`Attainment.SurvivesExactly`). Without user maps on returns this is so unless
  free models form a cycle (`Attainment.BlackSurvives`); `FreeLoops.FreeLoopLost` is a graph where it is not.
- *A supplied run with a hole* (`src/fhk/solve.c:557`): only its first bit is looked at. Exactly the run is cleared if and
  only if all of it was missing (`Bitmaps.ClearI`, `Givens.Given.SetValue`).
- *The 8-bit level of a memo* (`src/frontend/memoize.lua:26-27`): a miss keeps every saved memo exactly if the new level is
  not one that a live frame has saved, or that entry is there already (`Memos.Memo.Call`), and a whole run is right as long
  as this is so (`MemoRuns.Client.RunAll`); `Memos.WrapLosesPath` runs into it after 256 misses.
- *`ss1` of more than 32769 instances* (`src/frontend/fhk/ctypes.lua:170-176`): the marker bit comes out wrong, and an
  iterator over it goes on (`Subsets.IterateSs1`). The other packed form has no such limit (`Subsets.Iterate`).
- *`ss_csize` of intervals of more than 32769 instances* (`src/fhk/solve.c:1874-1889`): each comes out 65536 too small
  (`Subsets.CSize`).
- *A block that fits a fresh chunk exactly* (`src/mem.c:144-158`): the doubling leaves no byte to spare, which `bump` wants;
  the assertion behind it fails, exactly as in `Arenas.NewFits` (`Arenas.ExactFit` for a fresh arena).

## Model

| member | source | states |
|---|---|---|
| Costs.InvSExact | src/fhk/build.c:454-464 | staying at or below the precomputed inverse threshold is the same as keeping the model's cost at or below its bound |
| Costs.CostfAbove | src/fhk/def.h:141-142 | the threshold comparison of the solver is exact, also for infinite inverse costs |
| Closure.ClosureExists | src/fhk/solve.c:1121-1153 | on any graph, only finitely many costs up to a limit can arise from penalties, start bounds, sums and cost functions: what makes the search end |
| Graphs.SolutionNonNeg | src/fhk/solve.c:172-174 | every truth gives models at least `k` and variables nonnegative costs |
| Fixpoints.SolutionExists | src/fhk/def.h:141-142 | every well formed problem has true costs, cyclic or not |
| Fixpoints.Settles | src/fhk/def.h:141-142 | iterating the cost equations from infinity ends after finitely many rounds |
| Fixpoints.SettledSolves | src/fhk/def.h:141-142 | costs that a further round does not change satisfy the equations |
| Fixpoints.FoundGrounded | src/fhk/prune.c:206-256 | the costs found this way come from somewhere: a cheapest candidate whose parameters were found cheaper, or earlier |
| Fixpoints.FullExists | src/fhk/prune.c:141-164 | under any flags, too, there are true costs that come from somewhere |
| Fixpoints.SolverReady | src/fhk/solve.c:885-891 | so any well formed problem whose models start from `k` can be given to the solver |
| Uniqueness.SolutionUnique | src/fhk/def.h:141-142 | two true costs of an acyclic problem agree at every variable and model instance |
| Solver.ChainSolver.constructor | src/fhk/solve.c:405-450 | a new solver satisfies the invariant for every truth that the start bounds respect; models start from their `cmin`, variables from zero |
| Solver.ChainSolver.SelectCandidate | src/fhk/solve.c:1155-1195 | the scan takes the first of the cheapest places, and `m_beta` is the least of `beta` and the bounds at all other places |
| Scans.ScanOne | src/fhk/solve.c:1155-1195 | one more place: the first of the cheapest so far, and the cheapest of the others |
| Solver.ChainSolver.TakeUp | src/fhk/solve.c:1197-1241 | work on the candidate begins, with `m_beta` as its limit; nothing else changes |
| Solver.ChainSolver.StepCandidate | src/fhk/solve.c:1155-1241 | fails, takes a solved candidate, or begins work on the cheapest; keeps the invariant and comes closer to the end |
| Solver.ChainSolver.Enter | src/fhk/solve.c:1011-1081 | pushes a variable; the depth exit is taken exactly if one of the two stacks has no room, and then a dependency chain from the root does not fit; the cycle exit only on graphs with a cycle |
| Solver.ChainSolver.StepShadow | src/fhk/solve.c:1243-1349 | one step of the check loop keeps the invariant and makes progress, or pushes the checked variable; gives up only on a cycle or a chain that does not fit |
| Solver.ChainSolver.Penalize | src/fhk/solve.c:1334-1349 | a failing check adds its penalty once, or raises the model's bound over its threshold |
| Solver.ChainSolver.Pass | src/fhk/solve.c:1331-1332 | a passing instance moves on |
| Solver.ChainSolver.Evaluate | src/fhk/solve.c:1312-1329 | a check on a known variable is decided by its guard |
| Solver.ChainSolver.RunCheck | src/fhk/solve.c:1312-1329 | gets the value, scans ahead, and leaves the right bits |
| Solver.ChainSolver.ScanEnd | src/fhk/solve.c:1891-1908 | the scan stops at the first instance without a value |
| Solver.ChainSolver.CheckScan | src/fhk/solve.c:1442-1487 | every instance of the scanned range gets the bits of its guard, no other instance changes, and the bits are right for every truth |
| Solver.ChainSolver.StepParam | src/fhk/solve.c:1351-1423 | the same for the parameter loop |
| Solver.ChainSolver.Bound | src/fhk/solve.c:1140-1153 | the raised bound stays a lower bound, and exceeds `m_beta`, which is at least the old bound, so the instability exit is never taken on exact costs |
| Solver.ChainSolver.Finish | src/fhk/solve.c:1425-1439 | a candidate that stays within its threshold gets its exact cost, which is the true cost of the variable |
| Solver.ChainSolver.Choose | src/fhk/solve.c:1083-1107 | the variable on top gets its chain; earlier chains stay |
| Solver.ChainSolver.Resume | src/fhk/solve.c:1398-1407 | the caller goes on with the exact cost |
| Solver.ChainSolver.Fail | src/fhk/solve.c:1109-1138 | a variable fails only if its true cost exceeds its `beta`; a failed root has a true cost above the limit |
| Solver.ChainSolver.TakeFailure | src/fhk/solve.c:1109-1138 | the waiting frame goes on: a failed parameter raises the bound of its model, a failed check adds its penalty |
| Solver.ChainSolver.FailCheck | src/fhk/solve.c:1302-1308 | a check whose variable cannot be solved fails |
| Solver.ChainSolver.Step | src/fhk/solve.c:1001-1440 | every step of the machine keeps the invariant and chains, lowers the progress measure of some frame, and decreases no stored bound but of a variable that is being solved |
| Solver.ChainSolver.RunStep | src/fhk/solve.c:1001-1440 | a step, with the whole run of the frame it may push, brings its frame closer to the end |
| Solver.ChainSolver.RunFrame | src/fhk/solve.c:1001-1440 | every frame ends: solved or failed, on a cycle, or on a dependency chain that does not fit |
| Solver.ChainSolver.SelectChain | src/fhk/solve.c:1001-1440 | terminates on every graph; a solved root has its true cost, an unsolvable one a true cost above the limit, and no stored bound of any model or variable has decreased; the cycle exit means a cycle, and the depth exit a dependency chain of 32 variables, or of 256 candidates |
| Solver.ChainSolver.GrownIdle | src/fhk/solve.c:172-174 | what was noted in an idle state is at most what is stored in a later one |
| SolverPast.PopRises | src/fhk/solve.c:1083-1138 | a variable that leaves the stack costs at least what was stored for it at any earlier time |
| SolverPast.OldBelowLeast | src/fhk/solve.c:1155-1195 | since it was at most the bounds of its candidates, and these have only grown |
| SolverTwice.OthersWithin | src/fhk/solve.c:1121-1153 | a bound raised by the top frame stays within the thresholds of all suspended frames that work on the same model |
| SolverTwice.ParamEarlier | src/fhk/solve.c:1351-1423 | a second walk over the parameters of a model never comes past the first |
| SolverTwice.CheckEarlier | src/fhk/solve.c:1243-1349 | nor does one over its checks |
| Solver.SelectShallow | src/fhk/solve.c:1001-1440 | on ranked problems that are not too deep, the root is solved exactly if its true cost is within the limit, and unsolvable otherwise |
| Depths.TooDeepIsDeep | src/fhk/solve.c:1033-1054 | what cannot be pushed is the end of a dependency chain from the root that is too long or has too many candidates |
| Depths.ShallowFits | src/fhk/solve.c:1033-1054 | no such chain exists when ranks are low and variables have few models |
| SolverExact.BoundFacts | src/fhk/solve.c:1140-1153 | why a raised bound keeps the invariant and leaves fewer bounds to reach |
| SolverExact.MarkedIsCycle | src/fhk/solve.c:1038-1039 | a marked target closes a dependency cycle |
| SolverExact.ScanFacts | src/fhk/solve.c:1442-1487 | evaluating guards of variables with values never contradicts an earlier evaluation |
| SolverExact.FinishExact | src/fhk/solve.c:1425-1439 | penalties plus largest parameter costs below the threshold make the stored cost the true one |
| SolverExact.StartFacts | src/fhk/solve.c:885-891 | starting every model from `cmin` is sound |
| Solver.ChainSolver.ComputeValue | src/fhk/solve.c:1558-1655 | terminates, calls each model instance at most once and only after its computed parameters, and yields the value that evaluation along the chain gives |
| Solver.ChainSolver.SupplyParams | src/fhk/solve.c:1585-1596 | all parameter instances get their values |
| Solver.ChainSolver.CollectArgs | src/fhk/solve.c:1604-1607 | arguments arrive in the order the model expects: argument `ex` of edge `e` holds the values of edge `e` |
| Solver.ChainSolver.Collect | src/fhk/solve.c:1669-1699 | the values of one parameter: for an identity map the one at the model's own instance, for a space those of instances 0, 1, ... to the end of the space, for a user map those that it lists, in its order |
| Values.CollectedInOrder | src/fhk/solve.c:1669-1699 | why: the instances behind each kind of map |
| Solver.ChainSolver.GetGiven | src/fhk/solve.c:1533-1542 | a given value is asked for and stored |
| Values.EvalStable | src/fhk/solve.c:172-174 | later chains never change the value of a solved variable |
| Values.NewModelChain | src/fhk/solve.c:1425-1439 | the chain relation stays acyclic when a model is finished |
| Plans.ChainPlanOk | src/fhk/solve.c:1558-1655 | what the solver computes is evaluation along cheapest chains: every chosen candidate has the true cost of its variable, its parameters come earlier, and the value is what it returns |
| Plans.ChoicesDecide | src/fhk/solve.c:1558-1655 | the choices determine the values |
| Solver.ChainSolver.Solve | src/fhk/solve.c:759-829 | all roots get values along chains with their true costs; a batch that reaches the values fails there exactly if some root is stuck, and then some root costs at least the limit; a root stuck at the start rules out success, unless its bound is exactly the limit; an unsolvable root was taken up unsettled and costs more than the limit; the solver is idle and well formed again, and no bound has decreased |
| Solver.SolveShallow | src/fhk/solve.c:759-829 | a batch of roots below the limit, on ranked problems that are not too deep, always gets all its values |
| Solver.ChainSolver.SolveRoot | src/fhk/solve.c:777-794 | the chain phase of one root, with the condition of each outcome |
| Solver.ChainSolver.SolveInstance | src/fhk/solve.c:777-794 | a stuck instance is passed over with nothing changed; one that is not stuck and is solved has its chain |
| Solver.ChainSolver.ValueRoots | src/fhk/solve.c:796-812 | the value phase: values for all roots, or a root that is stuck and costs at least the limit |
| Solver.ChainSolver.ValueInstance | src/fhk/solve.c:796-812 | a value is computed, or the instance is stuck and costs at least the limit |
| SolverSeen.FailedIsStuck | src/fhk/solve.c:1302-1308 | a chained model leaves the variable of its first failing check done without a chain, if that variable costs more than the limit |
| StuckRoots.AskedIsStuck | src/fhk/solve.c:1302-1308 | once a variable has its chain, a too expensive variable on which all its models ask is stuck |
| StuckRoots.NotReported | src/fhk/solve.c:777-794 | so a batch never reports such a variable as unsolvable after the root that asks |
| StuckRoots.TwoRoots | src/fhk/solve.c:777-812 | a fresh solver, asked for two roots, goes on to a value computation without a chain |
| Build.BuildGraph | src/fhk/build.c:468-662 | from the definitions' fields alone: parameter edge `e` is parameter `ex` of the definition, checks are a rearrangement that keeps variable, map and penalty, return edges keep their places, model edges are the returns the other way around; forward edges count as parameters do; computed parameters come first, sorted by spread, and checks by penalty |
| Build.BuiltIsExact | src/fhk/build.c:600-662 | every edge of a built graph comes from one of the definitions, each once, with its variable, map and penalty |
| Build.Rearranged | src/fhk/build.c:722-754 | lists with the same elements differ by a permutation |
| Build.BuildVars | src/fhk/build.c:600-659 | each definition edge is appended once to the variable it leads to |
| Build.BuiltForwards | src/fhk/build.c:623-642 | forward edges count as often as parameters, with the same emptiness |
| Build.BuiltBackwards | src/fhk/build.c:644-659 | model edges and return edges are each other's inverse |
| FromDefs.BuiltReady | src/fhk/build.c:468-662 | a graph built from definitions without user maps, over nonempty groups, meets everything that pruner and solver require |
| FromDefs.BuiltEx | src/fhk/build.c:623-637 | `ex` permutes the parameters of every model |
| FromDefs.RetBack | src/fhk/build.c:644-659 | the return edge of a candidate leads back to the instance it was a candidate for |
| DefSpecs.CheapestAgrees | src/fhk/build.c:644-659 | the candidates of a variable in the graph are the returns of the definitions that lead to it |
| DefSpecs.ModelCosts | src/fhk/build.c:600-637 | the cost equation of a built model is that of its definition: `k`, `c`, the penalty of every check that fails somewhere, and for every parameter the cost at hand or the dearest of the space |
| DefSpecs.AvailableAgrees | src/fhk/prune.c:141-164 | a model of the graph may be used exactly if its definition may |
| DefSpecs.TruthAgrees | src/fhk/build.c:468-662 | the true costs of a built graph under any flags are exactly those of the definitions |
| DefSpecs.GroundedAgrees | src/fhk/build.c:468-662 | and so is what they come from |
| DefAnswers.SameTruth | src/fhk/build.c:722-754 | so whatever order the edges were sorted into, the true costs are the same |
| DefAnswers.GraphExists | src/fhk/build.c:468-662 | every definition can be built |
| DefAnswers.ArgsAgree | src/fhk/solve.c:1604-1607 | arguments of a built model, on the definition: argument `j` is the value of parameter `j` at the instance at hand, or the values of all instances in ascending order |
| DefAnswers.PickAgrees | src/fhk/solve.c:1644-1652 | the value picked from a result is what the definition's return holds for the instance |
| DefAnswers.ValuesAgree | src/fhk/solve.c:1558-1655 | evaluation along cheapest chains of a built graph is evaluation along cheapest chains of the definitions |
| Layouts.EdgesBalance | src/fhk/build.c:493-540 | variables and models have the same number of edges between them |
| Layouts.AllBytes | src/fhk/build.c:127-142 | all blocks together take what `fhk_graph_size` reserves for edges |
| Layouts.ScratchFits | src/fhk/build.c:489-519 | the scratch edges of the variables fit into the same space |
| Layouts.Assign | src/fhk/build.c:541-598 | every block is handed out once, no two overlap, and they fill exactly the reserved space |
| Layouts.BlocksHold | src/fhk/build.c:541-598 | each block has room for exactly the edges of its variable or model in the built graph |
| Layouts.PlaceModels | src/fhk/build.c:541-560 | a block for the model edges of a variable, and for models met for the first time |
| Layouts.PlaceFwds | src/fhk/build.c:562-579 | the same for forward edges and returns |
| Rebuild.Reorder | src/fhk/build.c:722-754 | the exchange sort sorts its range and permutes it |
| Rebuild.SplitParams | src/fhk/build.c:623-637 | computed parameters first, none lost |
| Heaps.Heap.Insert | src/fhk/prune.c:356-381 | keeps heap order and adds exactly one node |
| Heaps.Heap.Remove | src/fhk/prune.c:383-409 | keeps heap order and removes a least node |
| Heaps.GapDown | src/fhk/prune.c:388-408 | one step of the gap towards the leaves, or the place of the last node |
| Heaps.RootLeast | src/fhk/prune.c:383-387 | the root of an ordered heap is least |
| Heaps.PackedOrder | src/fhk/prune.c:25-36 | nodes are ordered as the packed integers that the heap compares: by cost, then colour, then variable |
| Bounds.LeastIsMinimum | src/fhk/prune.c:206-263 | a bound is the least derivation cost, and infinite exactly if there is no derivation |
| Bounds.LeastUnique | src/fhk/prune.c:206-263 | so the bounds are determined by the graph and its flags |
| Bounds.GrayBelowBlack | src/fhk/prune.c:206-263 | the optimistic bound never exceeds the pessimistic one |
| BoundEquations.ModelBoundIs | src/fhk/prune.c:230-256 | a bound of a model is `k + c*S`, written out: penalties of all checks, or for the optimist of those on skipped variables, and the bound of each parameter once, for the optimist without user-mapped ones |
| BoundEquations.VarBoundIs | src/fhk/prune.c:206-256 | a bound of a variable is zero if it is given, and otherwise that of the cheapest model returning it, for the pessimist not through a user map |
| Reached.BlackReached | src/fhk/prune.c:230-247 | where no guard holds, all grounded true costs are the black bounds |
| Reached.BlackWorld | src/fhk/prune.c:230-247 | and every graph, under all flags, has such a world |
| Reached.GrayReached | src/fhk/prune.c:230-247 | where exactly the checks on skipped variables fail, they are the gray bounds |
| Fronts.MarkVar | src/fhk/prune.c:206-217 | the least queued bound is right for a variable that has none yet, and any later one is no better |
| Fronts.TellReady | src/fhk/prune.c:219-227 | a model that misses nothing costs at least as much as the bound that completed it |
| Fronts.EndLeast | src/fhk/prune.c:199-204 | with an empty queue the bounds are the least ones |
| Pruner.StartNetOk | src/fhk/prune.c:141-164 | models that return or need skipped variables are skipped |
| Pruner.SkipsExactly | src/fhk/prune.c:141-164 | a model is skipped exactly if the caller skips it, or it returns a variable that is given or skipped, or takes one that is skipped |
| Pruner.Prune.MarkModels | src/fhk/prune.c:141-164 | flags exactly the models that the caller skips, that return given or skipped variables, or that need skipped ones, seen from the models' own edges |
| Pruner.Front.InitTallies | src/fhk/prune.c:166-176 | miss counters start as the number of needed parameters |
| Pruner.Prune.InsertGiven | src/fhk/prune.c:178-187 | exactly the given variables are queued; a skipped one is refused |
| Pruner.Prune.InsertConstmods | src/fhk/prune.c:189-197 | models that need nothing have their bounds before propagation starts |
| Pruner.Prune.Propagate | src/fhk/prune.c:199-204 | terminates, takes bounds in nondecreasing order, and ends with the least bounds of both colours |
| Pruner.Front.BoundVar | src/fhk/prune.c:206-228 | keeps the invariant of its colour and leaves the other colour's entries alone |
| Pruner.Front.BoundModel | src/fhk/prune.c:230-256 | a completed model gets its bound once and queues it for what it returns |
| Pruner.Prune.MarkUnreachable | src/fhk/prune.c:265-277 | missing bounds become infinite, and exactly nodes without a gray bound are skipped from then on |
| Pruner.Prune.SelectVar | src/fhk/prune.c:279-311 | terminates; adds only what the variable leads to, and all of it |
| Pruner.Prune.SelectModel | src/fhk/prune.c:312-323 | the same for a model, and marks what it returns |
| Pruner.Prune.MarkSelects | src/fhk/prune.c:325-340 | the selection is exactly what retained nodes lead to; a refusal names a node without a gray bound that is retained, or led to by a retained node with one |
| Pruner.Prune.Run | src/fhk/prune.c:125-139 | success: least bounds of both colours and exactly the reachable selection; refusal: a given variable is skipped, or the node named has no gray bound and is retained, or led to by a retained node with one |
| Selection.ClosedPath | src/fhk/prune.c:279-323 | a closed selection contains everything that its nodes lead to |
| Selection.VarSelects | src/fhk/prune.c:288-310 | next to a variable, exactly the models that may be cheaper than its black bound, and the first that attains a finite one |
| Selection.ModelSelects | src/fhk/prune.c:312-323 | next to a model, exactly what it takes and the checked variables that have a gray bound |
| PrunedGraph.SelectedFinite | src/fhk/prune.c:285-286 | without user maps on parameters nothing selected is skipped or unreachable |
| PrunedGraph.RefusedExactly | src/fhk/prune.c:325-332 | without user maps there is a reason to refuse exactly if a given variable is skipped or a retained node has infinite gray bound |
| PrunedGraph.PickedAttains | src/fhk/prune.c:292-309 | some picked model attains a finite black bound |
| PrunedGraph.KeptAttains | src/fhk/prune.c:292-309 | some selected candidate attains the true cost of every selected variable |
| PrunedGraph.RebuiltWellFormed | src/frontend/fhk/transform.lua:397-428 | the pruned graph is a well formed problem |
| Rebuild.LeftProblem | src/frontend/fhk/transform.lua:397-428 | what is left: selected models with all their edges and `cmin` set to the gray bound, computed parameters sorted by the distance of their bounds and checks by penalty, kept variables with their edges to these; fails exactly if a kept model checks a variable that is gone |
| Rebuild.ChecksFound | src/frontend/fhk/transform.lua:315-332 | the failure of the build |
| Outcomes.PrunedNotRefused | src/fhk/prune.c:325-340 | a run that succeeds had no reason to be refused |
| Outcomes.RefusedHasReason | src/fhk/prune.c:178-187 | a refused run had one |
| Outcomes.RefusedNode | src/fhk/prune.c:325-332 | the node that a refusal names is a given variable that is skipped, or a retained node without a gray bound |
| Obtaining.BoundIffObtainable | src/fhk/prune.c:206-277 | a node has a bound of either colour exactly if it can be had: from given variables, by models that may be used |
| Obtaining.RefusesMeans | src/fhk/prune.c:178-187 | so a reason to refuse is a given variable that is skipped, or a retained node that cannot be had |
| Obtaining.PrunedMeans | src/fhk/prune.c:325-340 | and a run that succeeds has none |
| Obtaining.RefusedBlames | src/fhk/prune.c:325-332 | the node named is the reason |
| Obtaining.FromGiven | src/fhk/prune.c:141-150 | a retained variable that a usable model returns from given variables alone is never the reason |
| Outcomes.KeptIffFinite | src/fhk/prune.c:312-323 | a variable that a selected model checks is kept exactly if it has a gray bound |
| Outcomes.GoneIfLost | src/frontend/fhk/transform.lua:315-332 | a check is lost in the pruned graph exactly if the retained nodes lead to a model that checks a variable without a gray bound |
| Outcomes.LeftAcyclic | src/frontend/fhk/transform.lua:397-428 | pruning makes no cycles |
| Outcomes.LeftDeep | src/frontend/fhk/transform.lua:397-428 | nor longer dependency chains |
| Optimum.GrayVar | src/fhk/prune.c:206-256 | grounded true costs are at least the gray bounds, in every world |
| Optimum.BlackDeriv | src/fhk/prune.c:206-256 | true costs are at most the cost of any pessimistic derivation |
| Optimum.Between | src/fhk/prune.c:206-277 | true costs lie between the bounds, at every node instance |
| Sums.ExactSPermuted | src/fhk/build.c:722-754 | reordering parameters and checks does not change the cost of a model |
| Sums.ExactSIs | src/fhk/def.h:141-142 | the inverse cost of a model, as a sum over its checks and one over its parameters |
| EndToEnd.LeftSolves | src/fhk/prune.c:279-340 | the true costs of the whole graph solve the equations of the selected graph |
| EndToEnd.GrayStarts | src/frontend/fhk/transform.lua:412-421 | gray bounds are sound start bounds of the solver |
| EndToEnd.PruningKeepsOptima | src/fhk/prune.c:279-340 | both, for all grounded true costs, with the same costs for all selected variables |
| EndToEnd.OrderedGrounded | src/fhk/prune.c:292-297 | unless free models form a cycle, all true costs come from somewhere |
| LeftValues.EdgesKept | src/fhk/build.c:600-659 | argument order and return edges survive pruning |
| LeftValues.PlanWhole | src/frontend/fhk/transform.lua:397-428 | evaluation along cheapest chains of the pruned graph is evaluation along cheapest chains of the whole |
| LeftValues.SameArgs | src/fhk/solve.c:1604-1607 | a model that is left gets the same arguments in the same order |
| EndToEnd.PruneAndSolve | src/frontend/fhk/transform.lua:370-431 | prune, build, solve from the gray bounds: an answer is the true cost in the whole graph, with the value of evaluation along cheapest chains of the whole graph; refused exactly if a given variable is skipped or a retained node cannot be had, and the node named is the reason; not built exactly under `LosesCheck`, given up only for a cycle or a dependency chain that does not fit |
| EndToEnd.PruneAndSolveOrdered | src/frontend/fhk/transform.lua:370-431 | the same for all true costs unless free models form a cycle |
| DefAnswers.AsksAny | src/frontend/fhk/transform.lua:370-431 | whatever is defined, flagged and asked for has true costs to be compared with |
| DefAnswers.BuildAndSolve | src/frontend/fhk/transform.lua:370-431 | from definitions to cost and value: build, prune, build again, solve; the cost is the true cost of the definitions, and the value comes along cheapest chains of the definitions |
| Attainment.SurvivesExactly | src/fhk/prune.c:292-309 | all finite black bounds are attained by derivations inside the selection if and only if some order leads out of every cycle of equal bounds |
| Attainment.TightSurvives | src/fhk/prune.c:292-309 | the derivation that such an order gives |
| Attainment.SmallestIsTight | src/fhk/prune.c:292-309 | and the order that derivations give: by the size of the smallest |
| SkippedChecks.SkippedCheck | src/frontend/fhk/transform.lua:315-332 | a retained variable whose only model checks a skipped one: not built |
| Attainment.BlackSurvives | src/fhk/prune.c:292-297 | so without user maps on returns, and unless free models form a cycle, a finite black bound is attained by a derivation inside the selection |
| FreeLoops.LoopIsPicked | src/fhk/prune.c:297-309 | with free models the rule may pick a loop and leave out the model that matters |
| FreeLoops.FreeLoopLost | src/fhk/prune.c:292-297 | a graph with a cycle of free models where the retained variable has black bound 0, no derivation in the selection, and no such order exists |
| Bitmaps.CarryIsCleared | src/fhk/solve.c:1944-1979 | adding at the start and subtracting at the end clears a run exactly if all of it is set |
| Bitmaps.ClearWord | src/fhk/solve.c:1963-1969 | one word, whatever its bits |
| Bitmaps.ClearI | src/fhk/solve.c:1944-1979 | every word comes out as addition with carry makes it, over any number of words, and this is exactly the run cleared if and only if all of the run was set |
| Bitmaps.ClearedIffSet | src/fhk/solve.c:1944-1979 | why: a hole anywhere in the run shows in the result |
| Bitmaps.FindI | src/fhk/solve.c:1985-2006 | the least set bit of the range, or none |
| Bitmaps.SetValues | src/fhk/solve.c:550-569 | an answer for part of a space that has its bitmap: which runs are refused, and that an accepted one is cleared exactly if all of it was missing |
| Givens.Given.SetValue | src/fhk/solve.c:538-582 | which answers are accepted, for part of a space or all of it, with a bitmap or without; what is missing afterwards; and that no other variable notices, although all-zero bitmaps are shared |
| Givens.Given.SetAll | src/fhk/solve.c:550-555 | all at once: accepted exactly if there is no bitmap yet, and nothing is missing then |
| Givens.Given.GetAll0 | src/fhk/solve.c:1918-1942 | the recycled bitmap, always all zero and large enough |
| Bitmaps.GetMissing | src/fhk/solve.c:1523-1531 | terminates, whatever is answered; every request is for the first instance that is missing from the one before on; succeeds exactly if each answer was accepted and its request cleared; a supplier whose runs contain the request, are missing and are shorter than the space always succeeds with none left; if all answers cleared the runs they supplied, only missing instances were asked for |
| Bitmaps.Ask | src/fhk/solve.c:538-569 | when an answer is accepted, and that the run it supplies is then cleared, nothing else, as long as all of it was missing |
| Subsets.PackIs | src/fhk/solve.c:50 | the packed form of an interval, decoded, for every shape |
| Subsets.NextFields | src/fhk/solve.c:99-104 | a step raises instance and counter, and a carry out of the counter, on the last instance only, clears the marker bit |
| Subsets.Walk | src/fhk/solve.c:99-104 | from any packed word: the instances visited, and whether the iterator stops behind them |
| Subsets.Iterate | src/fhk/solve.c:99-104 | the iteration visits every instance of a packed interval once, in order, and stops, for every shape |
| Subsets.Ss1Is | src/frontend/fhk/ctypes.lua:170-176 | what `ss1` packs: right but for the marker bit of more than 32769 instances |
| Subsets.IterateSs1 | src/frontend/fhk/ctypes.lua:170-176 | iterating over it stops at its end exactly for up to 32769 instances |
| Subsets.PkDecodes | src/frontend/fhk/ctypes.lua:162-168 | a packed range of any length decodes to its first instance and its length |
| Subsets.SortIdx | src/frontend/fhk/ctypes.lua:237 | the sorted list of the same indices |
| Subsets.FromIdx | src/frontend/fhk/ctypes.lua:232-253 | the subset made of any list of indices is the sorted list: nothing, one `ss1` of its ends exactly if there are no gaps (with the limit of `IterateSs1`), or the list of its longest intervals |
| Subsets.FromIdxComplex | src/frontend/fhk/ctypes.lua:204-230 | the same from the first gap on; no interval goes on where the one before it ends |
| Subsets.CollectNe | src/fhk/solve.c:1844-1854 | gathers the value of every index, in order |
| Subsets.CIndexOf | src/fhk/solve.c:1856-1872 | the position of an instance in the expanded list |
| Subsets.PositionOf | src/fhk/solve.c:1856-1872 | the position of the `k`th of distinct indices is `k` |
| Subsets.CSize | src/fhk/solve.c:1874-1889 | the number of indices, less 65536 for each interval too long for the signed field; so right exactly if there is none |
| Arenas.Arena.Alloc | src/mem.c:121-162 | the first aligned address of the first chunk that has room, apart from everything handed out since the last reset; nothing is handed out exactly if the block fits neither the list nor the chunk made for it |
| Arenas.DoubledEnough | src/mem.c:144-158 | a new chunk is the last one doubled just as often as needed |
| Arenas.Arena.Reset | src/mem.c:168-174 | all chunks are used again |
| Arenas.NewFits | src/mem.c:144-158 | a new chunk has no room for its block exactly if nothing is to spare and the pointer moves as far as it can |
| Arenas.ExactFit | src/mem.c:144-158 | twice the size of a fresh arena, unaligned, is not handed out |
| Sims.Sim.constructor | src/sim.c:44-79 | a fresh simulator is well formed, with an empty stack |
| Sims.Sim.Alloc | src/sim.c:85-112 | the first aligned address from the pointer on, strictly inside the region and disjoint from everything allocated before; fails exactly if it does not fit |
| Sims.Sim.Write | src/sim.c:85-112 | a write to an allocated byte disturbs no snapshot |
| Sims.Sim.BlockCopy | src/sim.c:251-257 | whole blocks are copied, and nothing outside the rounded range changes |
| Sims.Sim.Savepoint | src/sim.c:122-143 | saves the live stack; no allocated byte changes; each error exactly in its case |
| Sims.Sim.Up | src/sim.c:145-161 | back to an earlier frame only |
| Sims.Sim.Reload | src/sim.c:163-179 | the stack is what this activation of the frame saved |
| Sims.Sim.Load | src/sim.c:181-187 | rolls back to any live savepoint, whatever has happened since |
| Sims.Sim.Enter | src/sim.c:189-207 | a fresh activation with a new, larger frame number |
| Sims.Sim.Branch | src/sim.c:209-221 | a branch point with its savepoint; the branch bit stays even if saving fails |
| Sims.Sim.EnterBranch | src/sim.c:223-238 | succeeds exactly at a live branch point below the top of the frame stack, and starts from the state saved there; each error exactly in its case |
| SimRuns.Client.RunAll | src/sim.c:85-238 | any sequence of allocations, in-bounds writes, savepoints, jumps, loads and branches is a run of the simulator as user code sees it, step by step as in `Do`; it keeps the simulator well formed and every snapshot unchanged |
| SimRuns.Client.Do | src/sim.c:85-238 | one operation: the block or status that it has to return, and what it does to stack, frames, savepoints and the bytes of user code, each error case included |
| SimRuns.Client.SaveRunLoad | src/sim.c:122-187 | save, do anything, go back: while the activation of the frame is still live, the stack is restored byte for byte |
| Controls.CompilationPreserves | src/frontend/control/emit.lua:105-292 | compiled code means what its tree means, for every tree and every world |
| Denotations.MeaningDenotes | src/frontend/control/emit.lua:105-292 | what trees mean, one after the other, is what each of them does: a primitive goes on or cuts its path, `all` starts each edge wherever the one before it ends, `any` starts all from the same state |
| Denotations.AllAppend | src/frontend/control/emit.lua:182-205 | going through two lists of edges in turn |
| Controls.ChainMeaning | src/frontend/control/emit.lua:182-205 | a chain runs its edges one after the other, `nothing` left out |
| Controls.SameAfter | src/frontend/control/emit.lua:164-180 | code depends on its continuation only through what the continuation does |
| Controls.Compiler.CompileNode | src/frontend/control/emit.lua:35-72 | the table of compiled nodes never changes the result |
| Controls.Compiler.CompileAll | src/frontend/control/emit.lua:194-205 | the loop from the last edge to the first builds the chain |
| Controls.Compiler.CompileAny | src/frontend/control/emit.lua:263-292 | no edge, one edge, and branches |
| Nestings.EmitNests | src/frontend/control/emit.lua:105-292 | compiled code opens no more branch points than its tree and never runs into the bottom of the call stack |
| Machines.Machine.CopyStack | src/frontend/control/run.lua:2-17 | the copy is the same call stack, and everything up to the old top stays |
| Machines.Machine.Run | src/frontend/control/emit.lua:105-180 | a jump makes exactly the calls of its code and continuation, or the first of them before an error, never disturbs what is below its part of the stack, and has no error when frames and room suffice |
| Machines.Machine.RunAny | src/frontend/control/emit.lua:224-292 | every alternative starts from the state at the branch, and with enough frames and room all of them run |
| Machines.Execute | src/frontend/control/run.lua:32-37 | compiling and running a tree makes exactly the calls that the tree means, tree by tree, in the same states and order, or a prefix of them before an error; there is no error when the frame is fresh, its region has room, and there is a frame for every branch point on the deepest path |
| Memos.Memo.Call | src/frontend/memoize.lua:22-38 | at every level: a one-entry memo kept in savepointed memory, and it stays one exactly if the call hits or the slot it writes is no live frame's, or holds the same entry |
| Memos.Memo.FitsHarmless | src/frontend/memoize.lua:26-27 | a level that fits 8 bits hits no saved slot |
| Memos.Memo.Savepoint | src/sim.c:122-143 | a savepoint saves the memo |
| Memos.Memo.Load | src/sim.c:181-187 | loading brings back the memo of that time |
| Memos.Memo.Up | src/sim.c:145-161 | going back without loading leaves the memo alone |
| Memos.Memo.Reload | src/sim.c:163-179 | reloading brings back the memo of that time, or fails and leaves it |
| Memos.Memo.Enter | src/sim.c:189-207 | entering a frame leaves the memo alone |
| Memos.Memo.Branch | src/sim.c:209-221 | a branch point saves the memo |
| Memos.Memo.EnterBranch | src/sim.c:223-238 | the next alternative starts from the memo of its branch point; each failure leaves the memo that the failing step left |
| Memos.WrapLosesPath | src/frontend/memoize.lua:26-27 | the class itself, run: after 256 misses and a rollback, a memo that should be empty returns the result of the abandoned path |
| MemoRuns.Client.RunAll | src/frontend/memoize.lua:22-38 | any sequence of calls, savepoints, jumps, loads, branches, allocations and writes: memo and saved memos are those of a one-entry memo, all calls return what it has as long as no miss hits a saved slot, and so to the end if the levels of all calls fit into 8 bits |
| MemoRuns.Client.Do | src/frontend/memoize.lua:22-38 | one operation of such a run: a call returns what the memo has, and everything else the status that the frames decide |

## Left out

- Floating point: rounding, `-ffast-math`, NaN. Costs are exact; the heap key is the triple of cost, colour and variable that the packed integer compares.
- Lazy expansion: shapes, maps and state arrays are there from the start; requests for shapes and maps are not modelled.
- Coroutines, status packing and error metadata: a request to the outside is a call of a parameter.
- The flat loop of the solver is run as nested calls, one per frame, which take the same steps; the candidate stack is kept per frame, with its offsets.
- Guards: the outcome of a check is a fixed predicate per shadow instance, not a comparison of the stored value.
- Complex subsets in solver maps, and the packed iterator over them (`si_cnexti`): maps lead to finite sequences of instances. Scratch buffers and the direct-write path for returned values are not modelled.
- The cyclic solver (`JE_nyi`): the source stops there, too.
- Renumbering: the pruned graph keeps the old indices, and nodes that are gone stay as blanks without edges.
- EndToEnd.PruningKeepsOptima: only for identity and space maps over nonempty groups, because a user map may be empty where the pruner counts on an instance. For the same reason DefAnswers.BuildAndSolve is about definitions without user maps.
- The bit masks of the flags; `fhk_def_add_check` accepts negative penalties, which are excluded here.
- Layouts.Assign: the blocks of edges only; graph, nodes and the table of user map groups have fixed sizes, before and behind them.
- Arenas.Arena.Alloc: `malloc` never fails and gives fresh addresses; the arena is created with a nonempty chunk.
- Givens.Given.SetValue: lengths do not wrap, so a run of more than 2^32 - 65536 instances is simply too long; stored values are not part of it.
- Sims.Sim.Alloc: addresses are pairs of region and offset, so that alignment is alignment inside a region; debug fill and page protection are not modelled.
- Frame numbers and sizes are unbounded; the 32-bit counters are assumed not to wrap.
- Machines.Execute: primitives act on the live stack only and may return a truth value, not a function; recursive trees and their trampolines are not modelled; the error statuses of the simulator are not told apart.
- Memos.Memo.Call: one argument and one result; a memoized function that raises an error, which leaves an entry with new arguments and an old result, is not modelled. The level is allocated before the savepoints that are gone back to; loading an earlier one gives up its memory.
- The vector type, signatures, inference of graphs, views and plans.
