/** Every problem has true costs, cyclic or not: starting from infinity, the cost equations are iterated until nothing
    changes. The costs found this way come from somewhere. */
module Fixpoints {
  import opened Costs
  import opened Graphs
  import opened Closure
  import opened Heaps
  import opened Bounds
  import opened Optimum
  import opened PrunedGraph
  import opened Ranks
  import SolverState

  /** Which variables are free, and which models cannot be had. */
  datatype Rules = Rules(free: Ref -> bool, off: Ref -> bool)

  ghost predicate Solves(p: Problem, r: Rules, t: Truth)
    requires GraphOk(p.g)
  {
    && (forall x: Ref :: IsVar(p, x) ==> if r.free(x) then t.v(x) == Fin(0.0) else Cheapest(p, t, x))
    && (forall m: Ref :: IsModel(p, m) ==> if r.off(m) then t.m(m) == Inf else ModelEquation(p, t, m))
  }

  // ---------- one round ----------

  /** Costs of all model instances. */
  type ModelCosts = map<Ref, Cost>

  ghost predicate Costed(p: Problem, c: ModelCosts) {
    forall m :: m in c <==> IsModel(p, m)
  }

  function Look(c: ModelCosts): Ref -> Cost {
    (m: Ref) => if m in c then c[m] else Inf
  }

  /** Costs of the variables, given those of the models. */
  ghost function VarCost(p: Problem, r: Rules, c: ModelCosts, x: Ref): Cost {
    if IsVar(p, x) && !r.free(x) then BestTo(p, Look(c), x, NumEdges(p, x), 0) else Fin(0.0)
  }

  ghost function TruthOf(p: Problem, r: Rules, c: ModelCosts): Truth {
    Truth((x: Ref) => VarCost(p, r, c, x), Look(c))
  }

  ghost function ModelCost(p: Problem, r: Rules, c: ModelCosts, m: Ref): Cost
    requires GraphOk(p.g) && IsModel(p, m)
  {
    if r.off(m) then Inf else Costf(ModelOf(p, m).k, ModelOf(p, m).c, ExactS(p, TruthOf(p, r, c), m))
  }

  ghost function Step(p: Problem, r: Rules, c: ModelCosts): (d: ModelCosts)
    requires GraphOk(p.g)
    ensures Costed(p, d) && forall m :: m in d ==> d[m] == ModelCost(p, r, c, m)
  {
    map m | m in AllModels(p) :: ModelCost(p, r, c, m)
  }

  /** Every cost in `d` is at most that in `c`. */
  ghost predicate AtMost(p: Problem, d: ModelCosts, c: ModelCosts) {
    Costed(p, c) && Costed(p, d) && forall m :: m in c ==> Le(d[m], c[m])
  }

  // ---------- the round is monotone ----------

  lemma {:induction false} BestMono(p: Problem, f: Ref -> Cost, g: Ref -> Cost, x: Ref, ei: nat, i: nat)
    requires IsVar(p, x) && ei <= NumEdges(p, x) && (if ei < NumEdges(p, x) then i <= |CandInsts(p, x, ei)| else i == 0)
    requires forall m :: Le(f(m), g(m))
    ensures Le(BestTo(p, f, x, ei, i), BestTo(p, g, x, ei, i))
    decreases ei, i
  {
    if i > 0 {
      BestMono(p, f, g, x, ei, i - 1);
    } else if ei > 0 {
      BestMono(p, f, g, x, ei - 1, |CandInsts(p, x, ei - 1)|);
    }
  }

  lemma VarMono(p: Problem, r: Rules, d: ModelCosts, c: ModelCosts, x: Ref)
    requires AtMost(p, d, c)
    ensures Le(VarCost(p, r, d, x), VarCost(p, r, c, x))
  {
    if IsVar(p, x) && !r.free(x) {
      BestMono(p, Look(d), Look(c), x, NumEdges(p, x), 0);
    }
  }

  /** No variable costs more in `t` than in `u`. */
  ghost predicate Cheaper(t: Truth, u: Truth) {
    forall x: Ref :: Le(t.v(x), u.v(x))
  }

  lemma {:induction false} MaxMono(p: Problem, t: Truth, u: Truth, m: Ref, e: nat, n: nat)
    requires IsModel(p, m) && e < |ModelOf(p, m).params| && n <= |ParamInsts(p, m, e)| && Cheaper(t, u)
    ensures Le(MaxCost(p, t, m, e, n), MaxCost(p, u, m, e, n))
  {
    if n > 0 {
      MaxMono(p, t, u, m, e, n - 1);
    }
  }

  lemma {:induction false} SumMono(p: Problem, t: Truth, u: Truth, m: Ref, e: nat)
    requires IsModel(p, m) && e <= |ModelOf(p, m).params| && Cheaper(t, u)
    ensures Le(ParamSum(p, t, m, e), ParamSum(p, u, m, e))
    decreases |ModelOf(p, m).params| - e
  {
    hide Cheaper;
    if e < |ModelOf(p, m).params| {
      SumMono(p, t, u, m, e + 1);
      MaxMono(p, t, u, m, e, |ParamInsts(p, m, e)|);
    }
  }

  lemma FailsMono(p: Problem, t: Truth, u: Truth, m: Ref, e: nat)
    requires GraphOk(p.g) && IsModel(p, m) && e < |ModelOf(p, m).checks| && Cheaper(t, u) && CheckFails(p, t, m, e)
    ensures CheckFails(p, u, m, e)
  {
    assert ModelOk(p.g, ModelOf(p, m));
    var i: nat :| IsCheck(p, m, e, i) && !Passes(p, t, CheckRef(p, m, e, i));
    assert !Passes(p, u, CheckRef(p, m, e, i));
  }

  lemma {:induction false} PenaltyMono(p: Problem, t: Truth, u: Truth, m: Ref, e: nat)
    requires GraphOk(p.g) && IsModel(p, m) && e <= |ModelOf(p, m).checks| && Cheaper(t, u)
    ensures Penalties(p, t, m, e) <= Penalties(p, u, m, e)
  {
    assert ModelOk(p.g, ModelOf(p, m));
    hide Cheaper, CheckFails, GraphOk;
    if e > 0 {
      PenaltyMono(p, t, u, m, e - 1);
      if CheckFails(p, t, m, e - 1) {
        FailsMono(p, t, u, m, e - 1);
      }
    }
  }

  lemma ExactMono(p: Problem, t: Truth, u: Truth, m: Ref)
    requires GraphOk(p.g) && IsModel(p, m) && Cheaper(t, u)
    ensures Le(ExactS(p, t, m), ExactS(p, u, m))
  {
    hide GraphOk, Cheaper, Penalties, ParamSum;
    PenaltyMono(p, t, u, m, |ModelOf(p, m).checks|);
    SumMono(p, t, u, m, 0);
  }

  lemma StepMono(p: Problem, r: Rules, d: ModelCosts, c: ModelCosts)
    requires GraphOk(p.g) && AtMost(p, d, c)
    ensures AtMost(p, Step(p, r, d), Step(p, r, c))
  {
    hide GraphOk, ExactS, VarCost, AtMost;
    forall x: Ref
      ensures Le(VarCost(p, r, d, x), VarCost(p, r, c, x))
    {
      VarMono(p, r, d, c, x);
    }
    var d', c' := Step(p, r, d), Step(p, r, c);
    forall m | IsModel(p, m)
      ensures Le(d'[m], c'[m])
    {
      ModelFine(p, m);
      ExactMono(p, TruthOf(p, r, d), TruthOf(p, r, c), m);
      CostfMono(ModelOf(p, m).k, ModelOf(p, m).c, ExactS(p, TruthOf(p, r, d), m), ExactS(p, TruthOf(p, r, c), m));
    }
    AtMostIs(p, d', c');
  }

  lemma AtMostIs(p: Problem, d: ModelCosts, c: ModelCosts)
    requires Costed(p, c) && Costed(p, d) && forall m :: IsModel(p, m) ==> Le(d[m], c[m])
    ensures AtMost(p, d, c)
  {
  }

  lemma ModelFine(p: Problem, m: Ref)
    requires GraphOk(p.g) && IsModel(p, m)
    ensures ModelOf(p, m).k >= 0.0 && ModelOf(p, m).c >= 1.0
  {
    assert ModelOk(p.g, ModelOf(p, m));
  }

  // ---------- rounds ----------

  ghost function Start(p: Problem): (c: ModelCosts)
    ensures Costed(p, c) && forall m :: m in c ==> c[m].Inf?
  {
    map m | m in AllModels(p) :: Inf
  }

  ghost function Round(p: Problem, r: Rules, n: nat): (c: ModelCosts)
    requires GraphOk(p.g)
    ensures Costed(p, c)
  {
    if n == 0 then Start(p) else Step(p, r, Round(p, r, n - 1))
  }

  lemma StartAbove(p: Problem, r: Rules)
    requires GraphOk(p.g)
    ensures AtMost(p, Step(p, r, Round(p, r, 0)), Round(p, r, 0))
  {
    hide GraphOk, ModelCost;
  }

  lemma {:induction false} RoundsFall(p: Problem, r: Rules, n: nat)
    requires GraphOk(p.g)
    ensures AtMost(p, Round(p, r, n + 1), Round(p, r, n))
  {
    hide GraphOk, Round, Step, Costed;
    RoundNext(p, r, n);
    if n == 0 {
      StartAbove(p, r);
    } else {
      RoundsFall(p, r, n - 1);
      RoundNext(p, r, n - 1);
      StepMono(p, r, Round(p, r, n), Round(p, r, n - 1));
    }
  }

  lemma {:induction false} RoundsFallTo(p: Problem, r: Rules, n: nat, l: nat)
    requires GraphOk(p.g) && n <= l
    ensures AtMost(p, Round(p, r, l), Round(p, r, n))
    decreases l
  {
    hide GraphOk, Round;
    if n < l {
      RoundsFallTo(p, r, n, l - 1);
      RoundsFall(p, r, l - 1);
    }
  }

  lemma RoundNext(p: Problem, r: Rules, n: nat)
    requires GraphOk(p.g)
    ensures Round(p, r, n + 1) == Step(p, r, Round(p, r, n))
  {
  }

  /** From a round that changes nothing on, nothing changes. */
  lemma {:induction false} RoundsStay(p: Problem, r: Rules, n: nat, l: nat)
    requires GraphOk(p.g) && Round(p, r, n + 1) == Round(p, r, n) && n <= l
    ensures Round(p, r, l) == Round(p, r, n)
    decreases l
  {
    hide GraphOk, Round, Step, Costed;
    if n < l {
      RoundsStay(p, r, n, l - 1);
      RoundNext(p, r, l - 1);
      RoundNext(p, r, n);
    }
  }

  // ---------- what is finite ----------

  ghost predicate SameFinite(p: Problem, c: ModelCosts, d: ModelCosts) {
    Costed(p, c) && Costed(p, d) && forall m :: IsModel(p, m) ==> (c[m].Fin? <==> d[m].Fin?)
  }

  lemma {:induction false} BestFinite(p: Problem, f: Ref -> Cost, g: Ref -> Cost, x: Ref, ei: nat, i: nat)
    requires IsVar(p, x) && ei <= NumEdges(p, x) && (if ei < NumEdges(p, x) then i <= |CandInsts(p, x, ei)| else i == 0)
    requires forall m :: f(m).Fin? <==> g(m).Fin?
    ensures BestTo(p, f, x, ei, i).Fin? <==> BestTo(p, g, x, ei, i).Fin?
    decreases ei, i
  {
    if i > 0 {
      BestFinite(p, f, g, x, ei, i - 1);
    } else if ei > 0 {
      BestFinite(p, f, g, x, ei - 1, |CandInsts(p, x, ei - 1)|);
    }
  }

  ghost predicate AlikeFinite(t: Truth, u: Truth) {
    forall x: Ref :: t.v(x).Fin? <==> u.v(x).Fin?
  }

  lemma {:induction false} MaxFinite(p: Problem, t: Truth, u: Truth, m: Ref, e: nat, n: nat)
    requires IsModel(p, m) && e < |ModelOf(p, m).params| && n <= |ParamInsts(p, m, e)| && AlikeFinite(t, u)
    ensures MaxCost(p, t, m, e, n).Fin? <==> MaxCost(p, u, m, e, n).Fin?
  {
    if n > 0 {
      MaxFinite(p, t, u, m, e, n - 1);
    }
  }

  lemma {:induction false} SumFinite(p: Problem, t: Truth, u: Truth, m: Ref, e: nat)
    requires IsModel(p, m) && e <= |ModelOf(p, m).params| && AlikeFinite(t, u)
    ensures ParamSum(p, t, m, e).Fin? <==> ParamSum(p, u, m, e).Fin?
    decreases |ModelOf(p, m).params| - e
  {
    hide AlikeFinite;
    if e < |ModelOf(p, m).params| {
      SumFinite(p, t, u, m, e + 1);
      MaxFinite(p, t, u, m, e, |ParamInsts(p, m, e)|);
    }
  }

  /** What is finite after a round depends only on what is finite before it. */
  lemma StepFinite(p: Problem, r: Rules, c: ModelCosts, d: ModelCosts)
    requires GraphOk(p.g) && SameFinite(p, c, d)
    ensures SameFinite(p, Step(p, r, c), Step(p, r, d))
  {
    hide GraphOk, Penalties, ParamSum;
    forall x: Ref
      ensures VarCost(p, r, c, x).Fin? <==> VarCost(p, r, d, x).Fin?
    {
      if IsVar(p, x) && !r.free(x) {
        BestFinite(p, Look(c), Look(d), x, NumEdges(p, x), 0);
      }
    }
    hide VarCost, SameFinite;
    forall m | IsModel(p, m)
      ensures Step(p, r, c)[m].Fin? <==> Step(p, r, d)[m].Fin?
    {
      SumFinite(p, TruthOf(p, r, c), TruthOf(p, r, d), m, 0);
    }
    SameFiniteIs(p, Step(p, r, c), Step(p, r, d));
  }

  lemma SameFiniteIs(p: Problem, c: ModelCosts, d: ModelCosts)
    requires Costed(p, c) && Costed(p, d) && forall m :: IsModel(p, m) ==> (c[m].Fin? <==> d[m].Fin?)
    ensures SameFinite(p, c, d)
  {
  }

  ghost function Infinite(c: ModelCosts): set<Ref> {
    set m | m in c && c[m].Inf?
  }

  lemma FewerInfinite(p: Problem, d: ModelCosts, c: ModelCosts)
    requires AtMost(p, d, c) && !SameFinite(p, c, d)
    ensures |Infinite(d)| < |Infinite(c)|
  {
    var m :| IsModel(p, m) && c[m].Inf? && d[m].Fin?;
    assert Infinite(d) <= Infinite(c) - {m};
    SubsetSize(Infinite(d), Infinite(c) - {m});
  }

  /** After some round, the same costs are finite. */
  lemma {:induction false} FiniteSettles(p: Problem, r: Rules, n: nat) returns (l: nat)
    requires GraphOk(p.g)
    ensures l >= n && SameFinite(p, Round(p, r, l), Round(p, r, l + 1))
    decreases |Infinite(Round(p, r, n))|
  {
    hide GraphOk, Round, SameFinite, AtMost;
    RoundsFall(p, r, n);
    if SameFinite(p, Round(p, r, n), Round(p, r, n + 1)) {
      l := n;
    } else {
      FewerInfinite(p, Round(p, r, n + 1), Round(p, r, n));
      l := FiniteSettles(p, r, n + 1);
    }
  }

  lemma {:induction false} FiniteStays(p: Problem, r: Rules, n: nat, l: nat)
    requires GraphOk(p.g) && SameFinite(p, Round(p, r, n), Round(p, r, n + 1)) && n <= l
    ensures SameFinite(p, Round(p, r, l), Round(p, r, l + 1))
    decreases l
  {
    hide GraphOk, Round, SameFinite, Step, Costed;
    if n < l {
      var k: nat := l - 1;
      FiniteStays(p, r, n, k);
      RoundNext(p, r, k);
      RoundNext(p, r, k + 1);
      StepFinite(p, r, Round(p, r, k), Round(p, r, k + 1));
    }
  }

  // ---------- finitely many costs ----------

  /** A cost that is not negative, and in `lat` if it does not exceed `lim`. */
  ghost predicate Fine(lim: real, lat: set<Cost>, a: Cost) {
    Le(Fin(0.0), a) && (Le(a, Fin(lim)) ==> a in lat)
  }

  ghost predicate AllFine(lim: real, lat: set<Cost>, c: ModelCosts) {
    forall m :: m in c ==> Fine(lim, lat, c[m])
  }

  lemma FineSum(g: Graph, lim: real, lat: set<Cost>, a: Cost, b: Cost)
    requires ClosedTo(g, lim, lat) && Fine(lim, lat, a) && Fine(lim, lat, b)
    ensures Fine(lim, lat, Add(a, b))
  {
    if Le(Add(a, b), Fin(lim)) {
      assert Comes(g, lim, lat, Add(a, b), Sum(a, b));
    }
  }

  lemma FineZero(g: Graph, lim: real, lat: set<Cost>)
    requires ClosedTo(g, lim, lat)
    ensures Fine(lim, lat, Fin(0.0))
  {
    assert Fin(0.0) in Generators(g, lim);
  }

  lemma FinePenalty(p: Problem, lim: real, lat: set<Cost>, m: Ref, e: nat)
    requires GraphOk(p.g) && ClosedTo(p.g, lim, lat) && IsModel(p, m) && e < |ModelOf(p, m).checks|
    ensures Fine(lim, lat, Fin(ModelOf(p, m).checks[e].penalty))
  {
    assert ModelOk(p.g, ModelOf(p, m));
    if ModelOf(p, m).checks[e].penalty <= lim {
      assert Fin(ModelOf(p, m).checks[e].penalty) in Generators(p.g, lim);
    }
  }

  lemma FineImage(p: Problem, lim: real, lat: set<Cost>, m: Ref, a: Cost)
    requires GraphOk(p.g) && ClosedTo(p.g, lim, lat) && IsModel(p, m) && Fine(lim, lat, a)
    ensures Fine(lim, lat, Costf(ModelOf(p, m).k, ModelOf(p, m).c, a))
  {
    ModelFine(p, m);
    hide GraphOk;
    CostfAtLeast(ModelOf(p, m).k, ModelOf(p, m).c, a);
    var v := Costf(ModelOf(p, m).k, ModelOf(p, m).c, a);
    if Le(v, Fin(lim)) {
      assert Comes(p.g, lim, lat, ModelCostf(p.g, m.idx, a), Image(m.idx, a));
    }
  }

  lemma VarFine(p: Problem, r: Rules, lim: real, lat: set<Cost>, c: ModelCosts, x: Ref)
    requires ClosedTo(p.g, lim, lat) && AllFine(lim, lat, c)
    ensures Fine(lim, lat, VarCost(p, r, c, x))
  {
    hide ClosedTo;
    FineZero(p.g, lim, lat);
    if IsVar(p, x) && !r.free(x) {
      BestToIs(p, Look(c), x, NumEdges(p, x), 0);
    }
  }

  ghost predicate TruthFine(lim: real, lat: set<Cost>, t: Truth) {
    forall x: Ref :: Fine(lim, lat, t.v(x))
  }

  lemma {:induction false} MaxFine(p: Problem, lim: real, lat: set<Cost>, t: Truth, m: Ref, e: nat, n: nat)
    requires IsModel(p, m) && e < |ModelOf(p, m).params| && n <= |ParamInsts(p, m, e)|
    requires ClosedTo(p.g, lim, lat) && TruthFine(lim, lat, t)
    ensures Fine(lim, lat, MaxCost(p, t, m, e, n))
  {
    hide ClosedTo;
    FineZero(p.g, lim, lat);
    if n > 0 {
      MaxFine(p, lim, lat, t, m, e, n - 1);
    }
  }

  lemma {:induction false} SumFine(p: Problem, lim: real, lat: set<Cost>, t: Truth, m: Ref, e: nat)
    requires IsModel(p, m) && e <= |ModelOf(p, m).params| && ClosedTo(p.g, lim, lat) && TruthFine(lim, lat, t)
    ensures Fine(lim, lat, ParamSum(p, t, m, e))
    decreases |ModelOf(p, m).params| - e
  {
    hide ClosedTo, TruthFine, Fine;
    FineZero(p.g, lim, lat);
    if e < |ModelOf(p, m).params| {
      SumFine(p, lim, lat, t, m, e + 1);
      MaxFine(p, lim, lat, t, m, e, |ParamInsts(p, m, e)|);
      FineSum(p.g, lim, lat, ParamSum(p, t, m, e + 1), MaxCost(p, t, m, e, |ParamInsts(p, m, e)|));
    }
  }

  lemma {:induction false} PenaltiesFine(p: Problem, lim: real, lat: set<Cost>, t: Truth, m: Ref, e: nat)
    requires GraphOk(p.g) && IsModel(p, m) && e <= |ModelOf(p, m).checks| && ClosedTo(p.g, lim, lat)
    ensures Fine(lim, lat, Fin(Penalties(p, t, m, e)))
  {
    hide GraphOk, ClosedTo, CheckFails, Fine;
    FineZero(p.g, lim, lat);
    if e > 0 {
      PenaltiesFine(p, lim, lat, t, m, e - 1);
      FinePenalty(p, lim, lat, m, e - 1);
      FineSum(p.g, lim, lat, Fin(Penalties(p, t, m, e - 1)), Fin(ModelOf(p, m).checks[e - 1].penalty));
    }
  }

  lemma StepFine(p: Problem, r: Rules, lim: real, lat: set<Cost>, c: ModelCosts)
    requires GraphOk(p.g) && ClosedTo(p.g, lim, lat) && AllFine(lim, lat, c)
    ensures AllFine(lim, lat, Step(p, r, c))
  {
    hide GraphOk, ClosedTo, Penalties, ParamSum, VarCost;
    var t := TruthOf(p, r, c);
    forall x: Ref
      ensures Fine(lim, lat, t.v(x))
    {
      VarFine(p, r, lim, lat, c, x);
    }
    forall m | IsModel(p, m) && !r.off(m)
      ensures Fine(lim, lat, ModelCost(p, r, c, m))
    {
      PenaltiesFine(p, lim, lat, t, m, |ModelOf(p, m).checks|);
      SumFine(p, lim, lat, t, m, 0);
      FineSum(p.g, lim, lat, Fin(Penalties(p, t, m, |ModelOf(p, m).checks|)), ParamSum(p, t, m, 0));
      FineImage(p, lim, lat, m, ExactS(p, t, m));
    }
  }

  lemma StartFine(p: Problem, r: Rules, lim: real, lat: set<Cost>)
    requires GraphOk(p.g)
    ensures AllFine(lim, lat, Round(p, r, 0))
  {
  }

  lemma {:induction false} RoundsFine(p: Problem, r: Rules, lim: real, lat: set<Cost>, n: nat)
    requires GraphOk(p.g) && ClosedTo(p.g, lim, lat)
    ensures AllFine(lim, lat, Round(p, r, n))
  {
    hide GraphOk, ClosedTo, Round, Step, Costed, Fine;
    if n == 0 {
      StartFine(p, r, lim, lat);
    } else {
      RoundsFine(p, r, lim, lat, n - 1);
      RoundNext(p, r, n - 1);
      StepFine(p, r, lim, lat, Round(p, r, n - 1));
    }
  }

  lemma {:induction false} LargestFinite(c: ModelCosts, s: set<Ref>) returns (lim: real)
    requires s <= c.Keys
    ensures lim >= 0.0 && forall m :: m in s && c[m].Fin? ==> c[m].r <= lim
  {
    if s == {} {
      lim := 0.0;
    } else {
      var m :| m in s;
      var rest := LargestFinite(c, s - {m});
      lim := if c[m].Fin? && c[m].r > rest then c[m].r else rest;
      assert forall l :: l in s ==> l == m || l in s - {m};
    }
  }

  /** Costs that finite ones could still fall to. */
  ghost function Falls(lat: set<Cost>, c: ModelCosts): set<(Ref, Cost)> {
    set m, v | m in c && v in lat && c[m].Fin? && Lt(v, c[m]) :: (m, v)
  }

  lemma FewerFalls(p: Problem, lim: real, lat: set<Cost>, d: ModelCosts, c: ModelCosts)
    requires AtMost(p, d, c) && SameFinite(p, c, d) && d != c && AllFine(lim, lat, d)
    requires forall m :: m in c && c[m].Fin? ==> c[m].r <= lim
    ensures |Falls(lat, d)| < |Falls(lat, c)|
  {
    assert d.Keys == c.Keys;
    var m :| m in c && d[m] != c[m];
    assert Falls(lat, d) <= Falls(lat, c);
    assert (m, d[m]) in Falls(lat, c) && (m, d[m]) !in Falls(lat, d);
    assert Falls(lat, d) <= Falls(lat, c) - {(m, d[m])};
    SubsetSize(Falls(lat, d), Falls(lat, c) - {(m, d[m])});
  }

  /** Every finite cost is at most `lim`. */
  ghost predicate Bounded(c: ModelCosts, lim: real) {
    forall m :: m in c && c[m].Fin? ==> c[m].r <= lim
  }

  lemma StillBounded(p: Problem, d: ModelCosts, c: ModelCosts, lim: real)
    requires AtMost(p, d, c) && SameFinite(p, c, d) && Bounded(c, lim)
    ensures Bounded(d, lim)
  {
  }

  lemma {:induction false} SettlesFrom(p: Problem, r: Rules, lim: real, lat: set<Cost>, n: nat) returns (l: nat)
    requires GraphOk(p.g) && ClosedTo(p.g, lim, lat) && Bounded(Round(p, r, n), lim)
    requires SameFinite(p, Round(p, r, n), Round(p, r, n + 1))
    ensures Round(p, r, l + 1) == Round(p, r, l)
    decreases |Falls(lat, Round(p, r, n))|
  {
    hide GraphOk, ClosedTo, Round, SameFinite, AtMost, AllFine;
    if Round(p, r, n + 1) == Round(p, r, n) {
      l := n;
    } else {
      RoundsFall(p, r, n);
      RoundsFine(p, r, lim, lat, n + 1);
      FewerFalls(p, lim, lat, Round(p, r, n + 1), Round(p, r, n));
      StillBounded(p, Round(p, r, n + 1), Round(p, r, n), lim);
      FiniteStays(p, r, n, n + 1);
      l := SettlesFrom(p, r, lim, lat, n + 1);
    }
  }

  /** After finitely many rounds, nothing changes any more. */
  lemma Settles(p: Problem, r: Rules) returns (l: nat)
    requires GraphOk(p.g)
    ensures Round(p, r, l + 1) == Round(p, r, l)
  {
    hide GraphOk, ClosedTo, Round, SameFinite;
    var n := FiniteSettles(p, r, 0);
    var c := Round(p, r, n);
    var lim := LargestFinite(c, c.Keys);
    var lat := ClosureExists(p.g, lim);
    l := SettlesFrom(p, r, lim, lat, n);
  }

  // ---------- true costs ----------

  lemma SettledSolves(p: Problem, r: Rules, c: ModelCosts)
    requires GraphOk(p.g) && Costed(p, c) && Step(p, r, c) == c
    ensures Solves(p, r, TruthOf(p, r, c))
  {
    hide GraphOk, ExactS;
    var t := TruthOf(p, r, c);
    forall x: Ref | IsVar(p, x) && !r.free(x)
      ensures Cheapest(p, t, x)
    {
      BestToIs(p, Look(c), x, NumEdges(p, x), 0);
      forall ei: nat, i: nat | IsCand(p, x, ei, i)
        ensures Le(t.v(x), t.m(CandRef(p, x, ei, i)))
      {
        assert Before(p, x, ei, i, NumEdges(p, x), 0);
      }
    }
    hide BestTo;
    forall m: Ref | IsModel(p, m)
      ensures t.m(m) == ModelCost(p, r, c, m)
    {
    }
  }

  // ---------- where costs come from ----------

  /** In round `n`, variable `x` has its final cost, that of round `l`. */
  ghost predicate Found(p: Problem, r: Rules, l: nat, x: Ref, n: nat)
    requires GraphOk(p.g)
  {
    VarCost(p, r, Round(p, r, n), x) == VarCost(p, r, Round(p, r, l), x)
  }

  /** The first round, from `n` on, in which `x` has its final cost, that of round `l`. */
  ghost function Time(p: Problem, r: Rules, l: nat, x: Ref, n: nat): (k: nat)
    requires GraphOk(p.g) && n <= l
    ensures n <= k <= l
    decreases l - n
  {
    if n == l || Found(p, r, l, x, n) then n else Time(p, r, l, x, n + 1)
  }

  lemma {:induction false} TimeIs(p: Problem, r: Rules, l: nat, x: Ref, n: nat)
    requires GraphOk(p.g) && n <= l
    ensures Found(p, r, l, x, Time(p, r, l, x, n))
    decreases l - n
  {
    hide GraphOk, Round, VarCost;
    if n < l && !Found(p, r, l, x, n) {
      TimeIs(p, r, l, x, n + 1);
    }
  }

  lemma {:induction false} TimeLeast(p: Problem, r: Rules, l: nat, x: Ref, n: nat, k: nat)
    requires GraphOk(p.g) && n <= k <= l && Found(p, r, l, x, k)
    ensures Time(p, r, l, x, n) <= k
    decreases l - n
  {
    hide GraphOk, Round, VarCost;
    if n < l && !Found(p, r, l, x, n) {
      TimeLeast(p, r, l, x, n + 1, k);
    }
  }

  /** Cheaper variables first, and among equally cheap ones those whose cost was found earlier. */
  ghost function FoundRank(p: Problem, r: Rules, l: nat): Ref -> nat
    requires GraphOk(p.g)
  {
    (x: Ref) =>
      Product(|CheaperThan(p, TruthOf(p, r, Round(p, r, l)), AllVars(p), x)|, l + 1) + Time(p, r, l, x, 0)
  }

  lemma CostlierRank(p: Problem, r: Rules, l: nat, x: Ref, y: Ref)
    requires GraphOk(p.g) && IsVar(p, y) && Lt(VarCost(p, r, Round(p, r, l), y), VarCost(p, r, Round(p, r, l), x))
    ensures FoundRank(p, r, l)(y) < FoundRank(p, r, l)(x)
  {
    hide GraphOk, Round, VarCost, Time, CheaperThan;
    var t := TruthOf(p, r, Round(p, r, l));
    FewerCheaper(p, t, AllVars(p), x, y);
    ManyTimes(|CheaperThan(p, t, AllVars(p), y)|, |CheaperThan(p, t, AllVars(p), x)|, l + 1);
  }

  lemma EqualRank(p: Problem, r: Rules, l: nat, x: Ref, y: Ref)
    requires GraphOk(p.g) && VarCost(p, r, Round(p, r, l), y) == VarCost(p, r, Round(p, r, l), x)
    requires Time(p, r, l, y, 0) < Time(p, r, l, x, 0)
    ensures FoundRank(p, r, l)(y) < FoundRank(p, r, l)(x)
  {
    hide GraphOk, Round, VarCost, Time;
    var t := TruthOf(p, r, Round(p, r, l));
    assert CheaperThan(p, t, AllVars(p), y) == CheaperThan(p, t, AllVars(p), x);
  }

  /** A model whose cost has not changed since round `n` asks only for cheaper parameters, or for such as had their cost
      in round `n` already. */
  lemma ParamFound(p: Problem, r: Rules, n: nat, l: nat, m: Ref, e: nat, j: nat)
    requires GraphOk(p.g) && n <= l && IsParam(p, m, e, j)
    requires ModelCost(p, r, Round(p, r, n), m) == ModelCost(p, r, Round(p, r, l), m)
    requires ModelCost(p, r, Round(p, r, l), m).Fin?
    ensures var y := ParamRef(p, m, e, j); var v := VarCost(p, r, Round(p, r, l), y);
      Lt(v, ModelCost(p, r, Round(p, r, l), m))
          || (v == ModelCost(p, r, Round(p, r, l), m) && v == VarCost(p, r, Round(p, r, n), y))
  {
    hide GraphOk, Round, VarCost, ExactS;
    var t, u := TruthOf(p, r, Round(p, r, l)), TruthOf(p, r, Round(p, r, n));
    var y := ParamRef(p, m, e, j);
    ModelFine(p, m);
    SameS(p, m, ExactS(p, t, m), ExactS(p, u, m));
    ParamBelow(p, t, m, e, j);
    ParamBelow(p, u, m, e, j);
    CostfAtLeast(ModelOf(p, m).k, ModelOf(p, m).c, ExactS(p, t, m));
    RoundsFallTo(p, r, n, l);
    VarMono(p, r, Round(p, r, l), Round(p, r, n), y);
  }

  lemma SameS(p: Problem, m: Ref, a: Cost, b: Cost)
    requires IsModel(p, m) && ModelOf(p, m).c >= 1.0
    requires Costf(ModelOf(p, m).k, ModelOf(p, m).c, a) == Costf(ModelOf(p, m).k, ModelOf(p, m).c, b)
    ensures a == b
  {
    if a.Fin? && b.Fin? {
      Cancel(ModelOf(p, m).c, a.r, b.r);
    }
  }

  lemma Cancel(c: real, a: real, b: real)
    requires c >= 1.0
    ensures c * a == c * b ==> a == b
  {
    if a < b {
      MulMonoStrict(c, a, b);
    } else if b < a {
      MulMonoStrict(c, b, a);
    }
  }

  lemma ParamBelow(p: Problem, t: Truth, m: Ref, e: nat, j: nat)
    requires GraphOk(p.g) && IsParam(p, m, e, j)
    ensures Le(t.v(ParamRef(p, m, e, j)), ExactS(p, t, m)) && Le(Fin(0.0), ExactS(p, t, m))
  {
    hide GraphOk, Penalties, MaxCost;
    MaxCostAtLeast(p, t, m, e, |ParamInsts(p, m, e)|, j);
    ParamSumMono(p, t, m, e, 0);
  }

  /** The cheapest candidate when `x` got its cost is still one in the end. */
  lemma FirstCandidate(p: Problem, r: Rules, l: nat, x: Ref) returns (n: nat, ei: nat, i: nat)
    requires GraphOk(p.g) && IsVar(p, x) && !r.free(x) && VarCost(p, r, Round(p, r, l), x).Fin?
    ensures n + 1 == Time(p, r, l, x, 0) && IsCand(p, x, ei, i)
    ensures Look(Round(p, r, n + 1))(CandRef(p, x, ei, i)) == VarCost(p, r, Round(p, r, l), x)
    ensures Look(Round(p, r, l))(CandRef(p, x, ei, i)) == VarCost(p, r, Round(p, r, l), x)
  {
    hide GraphOk, Round, Time;
    var k := Time(p, r, l, x, 0);
    TimeIs(p, r, l, x, 0);
    var a, b := Round(p, r, k), Round(p, r, l);
    BestToIs(p, Look(a), x, NumEdges(p, x), 0);
    BestToIs(p, Look(b), x, NumEdges(p, x), 0);
    ei, i :| Before(p, x, ei, i, NumEdges(p, x), 0) && Look(a)(CandRef(p, x, ei, i)) == VarCost(p, r, a, x);
    RoundsFallTo(p, r, k, l);
    StartInfinite(p, r);
    n := k - 1;
  }

  lemma StartInfinite(p: Problem, r: Rules)
    requires GraphOk(p.g)
    ensures forall m :: Look(Round(p, r, 0))(m).Inf?
  {
  }

  /** The costs found by iteration come from somewhere. */
  lemma FoundGrounded(p: Problem, r: Rules, l: nat, x: Ref) returns (ei: nat, i: nat)
    requires WellFormed(p) && Round(p, r, l + 1) == Round(p, r, l) && IsVar(p, x) && !r.free(x)
    requires VarCost(p, r, Round(p, r, l), x).Fin?
    ensures GroundedBy(p, TruthOf(p, r, Round(p, r, l)), FoundRank(p, r, l), x, ei, i)
  {
    FormedGraph(p);
    hide WellFormed, Round, VarCost, FoundRank, Time, ModelCost;
    var n;
    n, ei, i := FirstCandidate(p, r, l, x);
    var m := CandRef(p, x, ei, i);
    CandModel(p, x, ei, i);
    RoundNext(p, r, n);
    RoundNext(p, r, l);
    forall e: nat, j: nat | IsParam(p, m, e, j)
      ensures FoundRank(p, r, l)(ParamRef(p, m, e, j)) < FoundRank(p, r, l)(x)
    {
      var y := ParamRef(p, m, e, j);
      ParamVar(p, m, e, j);
      ParamFound(p, r, n, l, m, e, j);
      if Lt(VarCost(p, r, Round(p, r, l), y), VarCost(p, r, Round(p, r, l), x)) {
        CostlierRank(p, r, l, x, y);
      } else {
        TimeLeast(p, r, l, y, 0, n);
        EqualRank(p, r, l, x, y);
      }
    }
  }

  lemma CandModel(p: Problem, x: Ref, ei: nat, i: nat)
    requires WellFormed(p) && IsCand(p, x, ei, i)
    ensures IsModel(p, CandRef(p, x, ei, i))
  {
  }

  lemma ParamVar(p: Problem, m: Ref, e: nat, j: nat)
    requires WellFormed(p) && IsParam(p, m, e, j)
    ensures IsVar(p, ParamRef(p, m, e, j))
  {
  }

  /** Every problem has true costs. */
  lemma SolutionExists(p: Problem) returns (t: Truth)
    requires WellFormed(p)
    ensures IsSolution(p, t)
  {
    FormedGraph(p);
    var r := Rules((x: Ref) => Given(p.g, x.idx), (m: Ref) => false);
    hide WellFormed, Round, Step, ModelEquation;
    var l := Settles(p, r);
    RoundNext(p, r, l);
    SettledSolves(p, r, Round(p, r, l));
    t := TruthOf(p, r, Round(p, r, l));
  }

  /** So every well formed problem whose models start from `k` can be given to the solver. */
  lemma SolverReady(p: Problem) returns (t: Truth)
    requires WellFormed(p) && forall m :: 0 <= m < |p.g.models| ==> p.g.models[m].cmin == p.g.models[m].k
    ensures IsSolution(p, t) && SolverState.StartBounds(p, t)
  {
    hide WellFormed, IsSolution;
    FormedGraph(p);
    t := SolutionExists(p);
    SolutionNonNeg(p, t);
  }

  /** So has a problem whose flags say what is given and what is skipped, and these come from somewhere. */
  lemma FullExists(p: Problem, n: Net) returns (t: Truth, rank: Ref -> nat)
    requires WellFormed(p) && NetOk(n) && n.g == p.g
    ensures FullSolution(p, n, t) && Grounded(p, n, t, rank)
  {
    FormedGraph(p);
    var r := Rules((x: Ref) => x.idx < |n.given| && n.given[x.idx], (m: Ref) => m.idx < |n.skipM| && n.skipM[m.idx]);
    hide WellFormed, GraphOk, ForwardsOk, BackwardsOk, Round, Step, ModelEquation, Cheapest, VarCost, GroundedBy,
        FoundRank;
    var l := Settles(p, r);
    RoundNext(p, r, l);
    SettledSolves(p, r, Round(p, r, l));
    t, rank := TruthOf(p, r, Round(p, r, l)), FoundRank(p, r, l);
    forall x: Ref | IsVar(p, x) && !n.given[x.idx] && t.v(x).Fin?
      ensures exists ei: nat, i: nat :: GroundedBy(p, t, rank, x, ei, i)
    {
      var ei, i := FoundGrounded(p, r, l, x);
    }
  }
}
