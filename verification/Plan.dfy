/** Evaluation along chains, as a condition on choices and values alone: which candidate is chosen for each variable,
    and what it returns for its parameters' values. */
module Plans {
  import opened Costs
  import opened Graphs
  import opened SolverState
  import opened Values

  /** The variable instances that are evaluated, the candidate chosen for each, an order in which it can be done, and
      the values. */
  datatype Plan = Plan(on: Ref -> bool, edge: Ref -> nat, model: Ref -> Ref, rank: Ref -> nat, val: Ref -> Value)

  /** The values of one parameter, in instance order. */
  ghost function ArgOf(p: Problem, m: Ref, e: nat, val: Ref -> Value): seq<Value>
    requires IsModel(p, m) && e < |ModelOf(p, m).params|
  {
    seq(|ParamInsts(p, m, e)|, (i: int) requires 0 <= i < |ParamInsts(p, m, e)| => val(ParamRef(p, m, e, i)))
  }

  /** All arguments, in the order the model expects. */
  ghost function ArgsOf(p: Problem, m: Ref, val: Ref -> Value): seq<seq<Value>>
    requires EdgesOk(p) && IsModel(p, m)
  {
    seq(|ModelOf(p, m).params|, (k: int) requires 0 <= k < |ModelOf(p, m).params| =>
      ArgOf(p, m, ParamAt(p, m, k), val))
  }

  /** Model instance `m` is a candidate of `x`, behind edge `ei`. */
  ghost predicate Candidates(p: Problem, x: Ref, ei: nat, m: Ref) {
    exists i: nat :: IsCand(p, x, ei, i) && CandRef(p, x, ei, i) == m
  }

  /** The chosen candidate of `x` is a cheapest one, its parameters come earlier, and the value is what it returns. */
  ghost predicate Computed(p: Problem, t: Truth, plan: Plan, x: Ref)
    requires EdgesOk(p)
  {
    && Candidates(p, x, plan.edge(x), plan.model(x)) && IsModel(p, plan.model(x))
    && t.m(plan.model(x)) == t.v(x)
    && (forall e: nat, j: nat :: IsParam(p, plan.model(x), e, j) ==> Earlier(plan, ParamRef(p, plan.model(x), e, j), x))
    && ReturnsTo(p, x, plan.edge(x), plan.model(x))
    && plan.val(x) == Returned(p, plan, x)
  }

  ghost predicate Earlier(plan: Plan, y: Ref, x: Ref) {
    plan.on(y) && plan.rank(y) < plan.rank(x)
  }

  ghost function Returned(p: Problem, plan: Plan, x: Ref): Value
    requires EdgesOk(p) && IsModel(p, plan.model(x)) && ReturnsTo(p, x, plan.edge(x), plan.model(x))
  {
    Pick(p, x, plan.edge(x), plan.model(x), p.call(plan.model(x), ArgsOf(p, plan.model(x), plan.val)))
  }

  /** Given variables have their values, and all others are computed along cheapest chains. */
  ghost predicate PlanOk(p: Problem, t: Truth, given: nat -> bool, plan: Plan)
    requires EdgesOk(p)
  {
    forall x :: plan.on(x) ==>
        IsVar(p, x) && if given(x.idx) then plan.val(x) == p.given(x) else Computed(p, t, plan, x)
  }

  /** `y` is the value of `x` by some such plan. */
  ghost predicate Evaluates(p: Problem, t: Truth, given: nat -> bool, x: Ref, y: Value)
    requires EdgesOk(p)
  {
    exists plan :: PlanOk(p, t, given, plan) && plan.on(x) && plan.val(x) == y
  }

  // ---------- the choices determine the values ----------

  ghost predicate SameChoices(a: Plan, b: Plan) {
    forall x :: a.on(x) ==> b.on(x) && b.edge(x) == a.edge(x) && b.model(x) == a.model(x)
  }

  lemma {:induction false} ChoicesDecide(p: Problem, t: Truth, given: nat -> bool, a: Plan, b: Plan, x: Ref)
    requires EdgesOk(p) && PlanOk(p, t, given, a) && PlanOk(p, t, given, b) && SameChoices(a, b) && a.on(x)
    ensures a.val(x) == b.val(x)
    decreases a.rank(x)
  {
    hide EdgesOk, ReturnsTo;
    if !given(x.idx) {
      assert Computed(p, t, a, x) && Computed(p, t, b, x);
      var m := a.model(x);
      forall k | 0 <= k < |ModelOf(p, m).params|
        ensures ArgOf(p, m, ParamAt(p, m, k), a.val) == ArgOf(p, m, ParamAt(p, m, k), b.val)
      {
        var e := ParamAt(p, m, k);
        forall i | 0 <= i < |ParamInsts(p, m, e)|
          ensures a.val(ParamRef(p, m, e, i)) == b.val(ParamRef(p, m, e, i))
        {
          assert IsParam(p, m, e, i) && Earlier(a, ParamRef(p, m, e, i), x);
          ChoicesDecide(p, t, given, a, b, ParamRef(p, m, e, i));
        }
      }
      assert ArgsOf(p, m, a.val) == ArgsOf(p, m, b.val);
    }
  }

  // ---------- the solver's chains are a plan ----------

  ghost function ChainPlan(p: Problem, v: VarMap, mm: ModMap, st: Stamps): Plan {
    Plan((x: Ref) => Known(p, v, x),
         (x: Ref) => if Chained(v, x) then v[x].st.ei else 0,
         (x: Ref) => ChainOf(p, v, x),
         (x: Ref) => if Given(p.g, x.idx) || ChainOf(p, v, x) !in st then 0 else st[ChainOf(p, v, x)] + 1,
         (x: Ref) => if StampsOk(p, v, mm, st) && Known(p, v, x) then Eval(p, v, mm, st, x) else 0.0)
  }

  function ChainOf(p: Problem, v: VarMap, x: Ref): Ref {
    if IsVar(p, x) && Chained(v, x) && v[x].st.ei < NumEdges(p, x) then ChainModel(p, x, v[x].st) else x
  }

  /** A chain leads to a cheapest candidate. */
  ghost predicate ExactLink(p: Problem, t: Truth, v: VarMap, x: Ref)
    requires IsVar(p, x)
  {
    && Chained(v, x) && v[x].st.ei < NumEdges(p, x)
    && Candidates(p, x, v[x].st.ei, ChainModel(p, x, v[x].st)) && t.m(ChainModel(p, x, v[x].st)) == t.v(x)
  }

  lemma ChainExact(p: Problem, t: Truth, lat: set<Cost>, s: Search, snaps: seq<ModMap>, x: Ref)
    requires InvOf(p, t, lat, s, snaps) && IsVar(p, x) && Chained(s.v, x)
    ensures ExactLink(p, t, s.v, x)
  {
    hide StackOk, MarksOk, WorkOk, SnapsOk, StartsOk, SeenOk, PastOk, FloorsOk, AllBitsOk, HaveOk;
    assert VarOk(p, t, lat, s.v, s.m, x);
    var m := ChainModel(p, x, s.v[x].st);
    var i: nat :| IsCand(p, x, s.v[x].st.ei, i) && CandRef(p, x, s.v[x].st.ei, i) == m;
    assert IsModel(p, m) && ModOk(p, t, lat, s.v, s.m, m);
  }

  lemma ArgsAlike(p: Problem, v: VarMap, mm: ModMap, st: Stamps, m: Ref)
    requires StampsOk(p, v, mm, st) && IsModel(p, m) && HasChain(mm, m)
    ensures ArgsOf(p, m, ChainPlan(p, v, mm, st).val) == Args(p, v, mm, st, m)
  {
    hide StampsOk, Eval;
    StampedEdges(p, v, mm, st);
    var val := ChainPlan(p, v, mm, st).val;
    forall k | 0 <= k < |ModelOf(p, m).params|
      ensures ArgOf(p, m, ParamAt(p, m, k), val) == Arg(p, v, mm, st, m, ParamAt(p, m, k))
    {
      var e := ParamAt(p, m, k);
      forall i | 0 <= i < |ParamInsts(p, m, e)|
        ensures Known(p, v, ParamRef(p, m, e, i)) && val(ParamRef(p, m, e, i)) == Arg(p, v, mm, st, m, e)[i]
      {
        ParamKnown(p, v, mm, st, m, e, i);
      }
    }
  }

  lemma StampedEdges(p: Problem, v: VarMap, mm: ModMap, st: Stamps)
    requires StampsOk(p, v, mm, st)
    ensures EdgesOk(p) && WellFormed(p)
  {
  }

  lemma ChainComputed(p: Problem, t: Truth, v: VarMap, mm: ModMap, st: Stamps, x: Ref)
    requires StampsOk(p, v, mm, st) && IsVar(p, x) && !Given(p.g, x.idx) && ExactLink(p, t, v, x)
    ensures EdgesOk(p) && Computed(p, t, ChainPlan(p, v, mm, st), x)
  {
    hide WellFormed, EdgesOk, Eval, ReturnsTo;
    var plan, m := ChainPlan(p, v, mm, st), ChainModel(p, x, v[x].st);
    assert ChainLink(p, v, mm, x);
    assert plan.model(x) == m && plan.edge(x) == v[x].st.ei;
    ArgsAlike(p, v, mm, st, m);
    forall e: nat, j: nat | IsParam(p, m, e, j)
      ensures Earlier(plan, ParamRef(p, m, e, j), x)
    {
      ParamKnown(p, v, mm, st, m, e, j);
    }
    EvalUnfolds(p, v, mm, st, x);
  }

  lemma EvalUnfolds(p: Problem, v: VarMap, mm: ModMap, st: Stamps, x: Ref)
    requires StampsOk(p, v, mm, st) && IsVar(p, x) && Chained(v, x) && !Given(p.g, x.idx)
    ensures ChainLink(p, v, mm, x) && var m := ChainModel(p, x, v[x].st);
      Eval(p, v, mm, st, x) == Pick(p, x, v[x].st.ei, m, p.call(m, Args(p, v, mm, st, m)))
  {
  }

  function NoEdges(p: Problem): nat -> bool {
    (i: nat) => Given(p.g, i)
  }

  /** What the solver computes is evaluation along cheapest chains. */
  lemma ChainPlanOk(p: Problem, t: Truth, lat: set<Cost>, s: Search, snaps: seq<ModMap>, st: Stamps)
    requires InvOf(p, t, lat, s, snaps) && StampsOk(p, s.v, s.m, st)
    ensures EdgesOk(p) && PlanOk(p, t, NoEdges(p), ChainPlan(p, s.v, s.m, st))
  {
    hide InvOf, StampsOk, EdgesOk, Computed, ExactLink, Eval;
    StampedEdges(p, s.v, s.m, st);
    var plan := ChainPlan(p, s.v, s.m, st);
    forall x: Ref | plan.on(x)
      ensures IsVar(p, x) && if Given(p.g, x.idx) then plan.val(x) == p.given(x) else Computed(p, t, plan, x)
    {
      if Given(p.g, x.idx) {
        GivenEval(p, s.v, s.m, st, x);
      } else {
        ChainExact(p, t, lat, s, snaps, x);
        ChainComputed(p, t, s.v, s.m, st, x);
      }
    }
  }

  lemma GivenEval(p: Problem, v: VarMap, mm: ModMap, st: Stamps, x: Ref)
    requires StampsOk(p, v, mm, st) && IsVar(p, x) && Given(p.g, x.idx)
    ensures Eval(p, v, mm, st, x) == p.given(x)
  {
  }
}
