/** The computational graph of fhk and the cost equations that its solver and pruner work on. */
module Graphs {
  import opened Costs

  /** Index maps of edges: identity, the whole space of a group, or a user map. */
  datatype Map = Ident | Space(group: nat) | User(id: nat)

  /** `fhk_edge`; on a backward edge `ex` is the position of the matching return edge. */
  datatype Edge = Edge(idx: nat, via: Map, ex: nat)

  /** `fhk_shedge`: a check of a model, on shadow `idx`. */
  datatype Check = Check(idx: nat, via: Map, penalty: real)

  /** `fhk_model`: the first `cparam` parameters are computed, the others given. */
  datatype Model = Model(group: nat, k: real, c: real, cmin: real,
                         checks: seq<Check>, cparam: nat, params: seq<Edge>, rets: seq<Edge>)

  datatype Var = Var(group: nat, models: seq<Edge>, fwds: seq<Edge>)

  datatype Graph = Graph(vars: seq<Var>, models: seq<Model>, shadows: seq<nat>)

  /** One instance of a variable, model or shadow. */
  datatype Ref = Ref(idx: nat, inst: nat)

  type Value = real

  /** A graph together with what the outside world answers: group shapes, user maps, guard outcomes, values of
      given variables, and what a model instance returns on its arguments (one list per return edge). */
  datatype Problem = Problem(g: Graph, shape: seq<nat>, umap: (nat, nat) -> seq<nat>, guard: Ref -> bool,
                             given: Ref -> Value, call: (Ref, seq<seq<Value>>) -> seq<seq<Value>>)

  predicate GraphOk(g: Graph) {
    && (forall x, i :: 0 <= x < |g.vars| && 0 <= i < |g.vars[x].models| ==> g.vars[x].models[i].idx < |g.models|)
    && (forall m :: 0 <= m < |g.models| ==> ModelOk(g, g.models[m]))
    && (forall w :: 0 <= w < |g.shadows| ==> g.shadows[w] < |g.vars|)
  }

  predicate ModelOk(g: Graph, m: Model) {
    && m.k >= 0.0 && m.c >= 1.0
    && m.cparam <= |m.params|
    && (forall j :: 0 <= j < |m.params| ==> m.params[j].idx < |g.vars|)
    && (forall j :: 0 <= j < |m.checks| ==> m.checks[j].idx < |g.shadows| && m.checks[j].penalty >= 0.0)
  }

  /** Given variables are those without models (`V_GIVEN`). */
  predicate Given(g: Graph, x: nat) {
    x < |g.vars| && |g.vars[x].models| == 0
  }

  /** The instances that the map leads to from instance `inst`, in iteration order. */
  function Insts(p: Problem, via: Map, inst: nat): seq<nat> {
    match via
    case Ident => [inst]
    case Space(g) => if g < |p.shape| then seq(p.shape[g], i => i) else []
    case User(u) => p.umap(u, inst)
  }

  function Shape(p: Problem, group: nat): nat {
    if group < |p.shape| then p.shape[group] else 0
  }

  predicate IsVar(p: Problem, x: Ref) {
    x.idx < |p.g.vars| && x.inst < Shape(p, p.g.vars[x.idx].group)
  }

  predicate IsModel(p: Problem, m: Ref) {
    m.idx < |p.g.models| && m.inst < Shape(p, p.g.models[m.idx].group)
  }

  predicate IsShadow(p: Problem, w: Ref) {
    w.idx < |p.g.shadows| && p.g.shadows[w.idx] < |p.g.vars| && IsVar(p, Ref(p.g.shadows[w.idx], w.inst))
  }

  function ModelOf(p: Problem, m: Ref): Model
    requires IsModel(p, m)
  {
    p.g.models[m.idx]
  }

  // ---------- instance level neighbours ----------

  /** Number of model edges of a variable. */
  function NumEdges(p: Problem, x: Ref): nat
    requires IsVar(p, x)
  {
    |p.g.vars[x.idx].models|
  }

  /** Instances of model edge `ei` of variable instance `x`. */
  function CandInsts(p: Problem, x: Ref, ei: nat): seq<nat>
    requires IsVar(p, x) && ei < NumEdges(p, x)
  {
    Insts(p, p.g.vars[x.idx].models[ei].via, x.inst)
  }

  /** The `t`th candidate model instance behind edge `ei` of `x`. */
  function CandRef(p: Problem, x: Ref, ei: nat, t: nat): Ref
    requires IsVar(p, x) && ei < NumEdges(p, x) && t < |CandInsts(p, x, ei)|
  {
    Ref(p.g.vars[x.idx].models[ei].idx, CandInsts(p, x, ei)[t])
  }

  predicate IsCand(p: Problem, x: Ref, ei: nat, t: nat) {
    IsVar(p, x) && ei < NumEdges(p, x) && t < |CandInsts(p, x, ei)|
  }

  function CheckInsts(p: Problem, m: Ref, e: nat): seq<nat>
    requires IsModel(p, m) && e < |ModelOf(p, m).checks|
  {
    Insts(p, ModelOf(p, m).checks[e].via, m.inst)
  }

  predicate IsCheck(p: Problem, m: Ref, e: nat, t: nat) {
    IsModel(p, m) && e < |ModelOf(p, m).checks| && t < |CheckInsts(p, m, e)|
  }

  /** The `t`th shadow instance of check `e` of `m`. */
  function CheckRef(p: Problem, m: Ref, e: nat, t: nat): Ref
    requires IsCheck(p, m, e, t)
  {
    Ref(ModelOf(p, m).checks[e].idx, CheckInsts(p, m, e)[t])
  }

  /** The variable instance guarded by a shadow instance. */
  function Guarded(p: Problem, w: Ref): Ref
    requires w.idx < |p.g.shadows|
  {
    Ref(p.g.shadows[w.idx], w.inst)
  }

  function ParamInsts(p: Problem, m: Ref, e: nat): seq<nat>
    requires IsModel(p, m) && e < |ModelOf(p, m).params|
  {
    Insts(p, ModelOf(p, m).params[e].via, m.inst)
  }

  predicate IsParam(p: Problem, m: Ref, e: nat, t: nat) {
    IsModel(p, m) && e < |ModelOf(p, m).params| && t < |ParamInsts(p, m, e)|
  }

  /** The `t`th variable instance of parameter `e` of `m`. */
  function ParamRef(p: Problem, m: Ref, e: nat, t: nat): Ref
    requires IsParam(p, m, e, t)
  {
    Ref(ModelOf(p, m).params[e].idx, ParamInsts(p, m, e)[t])
  }

  /** Maps stay inside the spaces they lead to, and computed parameters come first. */
  ghost predicate WellFormed(p: Problem) {
    && GraphOk(p.g)
    && (forall x: Ref, ei: nat, t: nat :: IsCand(p, x, ei, t) ==> IsModel(p, CandRef(p, x, ei, t)))
    && (forall m: Ref, e: nat, t: nat :: IsCheck(p, m, e, t) ==> IsShadow(p, CheckRef(p, m, e, t)))
    && (forall m: Ref, e: nat, t: nat :: IsParam(p, m, e, t) ==> IsVar(p, ParamRef(p, m, e, t)))
    && (forall m: Ref, e: nat :: IsModel(p, m) && e < |ModelOf(p, m).params| ==>
          (e < ModelOf(p, m).cparam <==> !Given(p.g, ModelOf(p, m).params[e].idx)))
  }

  // ---------- the cost equations ----------

  /** Candidate values for the true costs of all variable and model instances. */
  datatype Truth = Truth(v: Ref -> Cost, m: Ref -> Cost)

  /** A check passes on a solvable variable whose guard holds. */
  ghost predicate Passes(p: Problem, t: Truth, w: Ref)
    requires w.idx < |p.g.shadows|
  {
    Le(t.v(Guarded(p, w)), Fin(MAX_COST)) && p.guard(w)
  }

  ghost predicate CheckFails(p: Problem, t: Truth, m: Ref, e: nat)
    requires GraphOk(p.g) && IsModel(p, m) && e < |ModelOf(p, m).checks|
  {
    exists i: nat :: IsCheck(p, m, e, i) && !Passes(p, t, CheckRef(p, m, e, i))
  }

  /** Penalties of the failing checks among the first `e`. */
  ghost function Penalties(p: Problem, t: Truth, m: Ref, e: nat): (r: real)
    requires GraphOk(p.g) && IsModel(p, m) && e <= |ModelOf(p, m).checks|
    ensures r >= 0.0
  {
    if e == 0 then 0.0
    else Penalties(p, t, m, e - 1) + (if CheckFails(p, t, m, e - 1) then ModelOf(p, m).checks[e - 1].penalty else 0.0)
  }

  /** Largest cost among the first `n` instances of parameter `e`; zero when there are none. */
  ghost function MaxCost(p: Problem, t: Truth, m: Ref, e: nat, n: nat): (r: Cost)
    requires IsModel(p, m) && e < |ModelOf(p, m).params| && n <= |ParamInsts(p, m, e)|
    ensures Le(Fin(0.0), r)
  {
    if n == 0 then Fin(0.0) else Max(MaxCost(p, t, m, e, n - 1), t.v(ParamRef(p, m, e, n - 1)))
  }

  /** Summed costs of the parameters from `e` on. */
  ghost function ParamSum(p: Problem, t: Truth, m: Ref, e: nat): (r: Cost)
    requires IsModel(p, m) && e <= |ModelOf(p, m).params|
    ensures Le(Fin(0.0), r)
    decreases |ModelOf(p, m).params| - e
  {
    if e == |ModelOf(p, m).params| then Fin(0.0)
    else Add(ParamSum(p, t, m, e + 1), MaxCost(p, t, m, e, |ParamInsts(p, m, e)|))
  }

  /** The inverse cost `S` of a model instance. */
  ghost function ExactS(p: Problem, t: Truth, m: Ref): Cost
    requires GraphOk(p.g) && IsModel(p, m)
  {
    Add(Fin(Penalties(p, t, m, |ModelOf(p, m).checks|)), ParamSum(p, t, m, 0))
  }

  /** A variable costs as much as its cheapest candidate; given variables are free. */
  ghost predicate VarEquation(p: Problem, t: Truth, x: Ref)
    requires IsVar(p, x)
  {
    if Given(p.g, x.idx) then t.v(x) == Fin(0.0)
    else
      && (forall ei: nat, i: nat :: IsCand(p, x, ei, i) ==> Le(t.v(x), t.m(CandRef(p, x, ei, i))))
      && (t.v(x).Inf? || exists ei: nat, i: nat :: IsCand(p, x, ei, i) && t.m(CandRef(p, x, ei, i)) == t.v(x))
  }

  ghost predicate ModelEquation(p: Problem, t: Truth, m: Ref)
    requires GraphOk(p.g) && IsModel(p, m)
  {
    t.m(m) == Costf(ModelOf(p, m).k, ModelOf(p, m).c, ExactS(p, t, m))
  }

  /** `t` satisfies the min/sum/max equations of the whole problem. */
  ghost predicate IsSolution(p: Problem, t: Truth)
    requires GraphOk(p.g)
  {
    && (forall x: Ref :: IsVar(p, x) ==> VarEquation(p, t, x))
    && (forall m: Ref :: IsModel(p, m) ==> ModelEquation(p, t, m))
  }

  /** No cycle through candidates, parameters and checks: `rank` drops along every dependency. */
  ghost predicate Ranked(p: Problem, rankV: Ref -> nat, rankM: Ref -> nat)
    requires WellFormed(p)
  {
    && (forall x: Ref, ei: nat, i: nat :: IsCand(p, x, ei, i) ==> rankM(CandRef(p, x, ei, i)) < rankV(x))
    && (forall m: Ref, e: nat, i: nat :: IsParam(p, m, e, i) ==> rankV(ParamRef(p, m, e, i)) < rankM(m))
    && (forall m: Ref, e: nat, i: nat :: IsCheck(p, m, e, i) ==> rankV(Guarded(p, CheckRef(p, m, e, i))) < rankM(m))
  }

  ghost predicate Acyclic(p: Problem)
    requires WellFormed(p)
  {
    exists rankV: Ref -> nat, rankM: Ref -> nat :: Ranked(p, rankV, rankM)
  }

  /** All instances of variables, models and shadow variables. */
  function AllVars(p: Problem): (xs: set<Ref>)
    ensures forall x :: x in xs <==> IsVar(p, x)
  {
    set i: nat, j: nat | i < |p.g.vars| && j < Shape(p, p.g.vars[i].group) :: Ref(i, j)
  }

  function AllModels(p: Problem): (ms: set<Ref>)
    ensures forall m :: m in ms <==> IsModel(p, m)
  {
    set i: nat, j: nat | i < |p.g.models| && j < Shape(p, p.g.models[i].group) :: Ref(i, j)
  }

  function AllShadows(p: Problem): (ws: set<Ref>)
    requires GraphOk(p.g)
    ensures forall w :: w in ws <==> IsShadow(p, w)
  {
    set i: nat, j: nat | i < |p.g.shadows| && j < Shape(p, p.g.vars[p.g.shadows[i]].group) :: Ref(i, j)
  }

  lemma FormedGraph(p: Problem)
    requires WellFormed(p)
    ensures GraphOk(p.g)
  {
  }

  // ---------- consequences of the equations ----------

  lemma {:induction false} MaxCostAtLeast(p: Problem, t: Truth, m: Ref, e: nat, n: nat, i: nat)
    requires IsModel(p, m) && e < |ModelOf(p, m).params| && i < n <= |ParamInsts(p, m, e)|
    ensures Le(t.v(ParamRef(p, m, e, i)), MaxCost(p, t, m, e, n))
  {
    if i < n - 1 {
      MaxCostAtLeast(p, t, m, e, n - 1, i);
    }
  }

  lemma {:induction false} MaxCostZero(p: Problem, t: Truth, m: Ref, e: nat, n: nat)
    requires IsModel(p, m) && e < |ModelOf(p, m).params| && n <= |ParamInsts(p, m, e)|
    requires forall i: nat :: i < n ==> t.v(ParamRef(p, m, e, i)) == Fin(0.0)
    ensures MaxCost(p, t, m, e, n) == Fin(0.0)
  {
    if n > 0 {
      MaxCostZero(p, t, m, e, n - 1);
    }
  }

  lemma SolutionNonNeg(p: Problem, t: Truth)
    requires WellFormed(p) && IsSolution(p, t)
    ensures forall m: Ref :: IsModel(p, m) ==> Le(Fin(ModelOf(p, m).k), t.m(m))
    ensures forall x: Ref :: IsVar(p, x) ==> Le(Fin(0.0), t.v(x))
  {
    forall m: Ref | IsModel(p, m)
      ensures Le(Fin(ModelOf(p, m).k), t.m(m))
    {
      assert ModelEquation(p, t, m);
      assert ModelOk(p.g, ModelOf(p, m));
      CostfAtLeast(ModelOf(p, m).k, ModelOf(p, m).c, ExactS(p, t, m));
    }
    forall x: Ref | IsVar(p, x)
      ensures Le(Fin(0.0), t.v(x))
    {
      assert VarEquation(p, t, x);
      if !Given(p.g, x.idx) && t.v(x).Fin? {
        var ei: nat, i: nat :| IsCand(p, x, ei, i) && t.m(CandRef(p, x, ei, i)) == t.v(x);
        var m := CandRef(p, x, ei, i);
        assert IsModel(p, m) && ModelOk(p.g, ModelOf(p, m));
      }
    }
  }

  /** Given parameters contribute nothing. */
  lemma GivenSum(p: Problem, t: Truth, m: Ref, e: nat)
    requires WellFormed(p) && IsSolution(p, t) && IsModel(p, m)
    requires ModelOf(p, m).cparam <= e <= |ModelOf(p, m).params|
    ensures ParamSum(p, t, m, e) == Fin(0.0)
    decreases |ModelOf(p, m).params| - e
  {
    if e < |ModelOf(p, m).params| {
      GivenSum(p, t, m, e + 1);
      forall i: nat | i < |ParamInsts(p, m, e)|
        ensures t.v(ParamRef(p, m, e, i)) == Fin(0.0)
      {
        assert IsParam(p, m, e, i);
        assert VarEquation(p, t, ParamRef(p, m, e, i));
      }
      MaxCostZero(p, t, m, e, |ParamInsts(p, m, e)|);
    }
  }

  /** Later parameters only add to the sum. */
  lemma ParamSumMono(p: Problem, t: Truth, m: Ref, e: nat, from: nat)
    requires IsModel(p, m) && from <= e <= |ModelOf(p, m).params|
    ensures Le(ParamSum(p, t, m, e), ParamSum(p, t, m, from))
  {
    if e > from {
      ParamSumMono(p, t, m, e - 1, from);
      var mx := MaxCost(p, t, m, e - 1, |ParamInsts(p, m, e - 1)|);
    }
  }

  lemma PenaltiesMono(p: Problem, t: Truth, m: Ref, e: nat, n: nat)
    requires GraphOk(p.g) && IsModel(p, m) && e <= n <= |ModelOf(p, m).checks|
    ensures Penalties(p, t, m, e) <= Penalties(p, t, m, n)
    decreases n - e
  {
    if e < n {
      PenaltiesMono(p, t, m, e + 1, n);
    }
  }
}
