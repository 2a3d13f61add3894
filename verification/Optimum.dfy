/** Pruning keeps every optimum: the true costs of the whole graph solve the equations of what is selected. */
module Optimum {
  import opened Costs
  import opened Graphs
  import opened Heaps
  import opened Bounds
  import opened Selection
  import opened Pruner

  // ---------- the whole graph ----------

  /** Identity maps and spaces of nonempty groups. */
  predicate SimpleMap(p: Problem, via: Map) {
    via.Ident? || (via.Space? && via.group < |p.shape| && p.shape[via.group] > 0)
  }

  ghost predicate SimpleMaps(p: Problem) {
    && (forall x, i :: 0 <= x < |p.g.vars| && 0 <= i < |p.g.vars[x].models| ==> SimpleMap(p, p.g.vars[x].models[i].via))
    && (forall m, i :: 0 <= m < |p.g.models| && 0 <= i < |p.g.models[m].params| ==>
        SimpleMap(p, p.g.models[m].params[i].via))
    && (forall m, i :: 0 <= m < |p.g.models| && 0 <= i < |p.g.models[m].checks| ==>
        SimpleMap(p, p.g.models[m].checks[i].via))
    && (forall m, i :: 0 <= m < |p.g.models| && 0 <= i < |p.g.models[m].rets| ==>
        SimpleMap(p, p.g.models[m].rets[i].via))
  }

  /** The cheapest candidate of `x`, infinity when none is finite. */
  ghost predicate Cheapest(p: Problem, t: Truth, x: Ref)
    requires IsVar(p, x)
  {
    && (forall ei: nat, i: nat :: IsCand(p, x, ei, i) ==> Le(t.v(x), t.m(CandRef(p, x, ei, i))))
    && (t.v(x).Inf? || exists ei: nat, i: nat :: IsCand(p, x, ei, i) && t.m(CandRef(p, x, ei, i)) == t.v(x))
  }

  /** True costs of the graph without its skipped part: given variables are free, a skipped model cannot be had, and
      so nor can a skipped variable, whose checks fail. */
  ghost predicate FullSolution(p: Problem, n: Net, t: Truth)
    requires NetOk(n) && n.g == p.g
  {
    && (forall x: Ref :: IsVar(p, x) ==> if n.given[x.idx] then t.v(x) == Fin(0.0) else Cheapest(p, t, x))
    && (forall m: Ref :: IsModel(p, m) ==> if n.skipM[m.idx] then t.m(m) == Inf else ModelEquation(p, t, m))
  }

  /** Finite costs come from somewhere: every such variable has a cheapest candidate whose parameters rank lower. */
  ghost predicate Grounded(p: Problem, n: Net, t: Truth, rank: Ref -> nat)
    requires NetOk(n) && n.g == p.g
  {
    forall x: Ref :: IsVar(p, x) && !n.given[x.idx] && t.v(x).Fin? ==>
        exists ei: nat, i: nat :: GroundedBy(p, t, rank, x, ei, i)
  }

  ghost predicate GroundedBy(p: Problem, t: Truth, rank: Ref -> nat, x: Ref, ei: nat, i: nat)
    requires IsVar(p, x)
  {
    && IsCand(p, x, ei, i) && t.m(CandRef(p, x, ei, i)) == t.v(x)
    && (forall e: nat, j: nat :: IsParam(p, CandRef(p, x, ei, i), e, j) ==>
        rank(ParamRef(p, CandRef(p, x, ei, i), e, j)) < rank(x))
  }

  /** What the theorems below are about: a pruned graph whose maps are simple, and its true costs. */
  ghost predicate Scene(p: Problem, f: Flags, k: Bounded, f': Flags, t: Truth) {
    && WellFormed(p) && SimpleMaps(p) && ForwardsOk(p.g) && BackwardsOk(p.g) && FlagsFit(p.g, f)
    && NetOk(StartNet(p.g, f)) && Pruned(p.g, f, k, f') && FullSolution(p, StartNet(p.g, f), t)
  }

  // ---------- true costs are at least the gray bounds ----------

  lemma SimpleInsts(p: Problem, via: Map, inst: nat)
    requires SimpleMap(p, via)
    ensures |Insts(p, via, inst)| > 0
  {
  }

  /** Every needed parameter costs at least its bound, in each of its instances. */
  ghost predicate ParamsAtLeast(p: Problem, v: seq<Cost>, t: Truth, m: Ref) {
    forall e: nat, j: nat :: IsParam(p, m, e, j) && ParamRef(p, m, e, j).idx < |v| ==>
      Le(v[ParamRef(p, m, e, j).idx], t.v(ParamRef(p, m, e, j)))
  }

  lemma {:induction false} SumAtLeastGray(p: Problem, n: Net, v: seq<Cost>, t: Truth, m: Ref, e: nat)
    requires NetOk(n) && n.g == p.g && |v| == |p.g.vars| && SimpleMaps(p) && IsModel(p, m)
    requires e <= |ModelOf(p, m).params|
    requires ParamsAtLeast(p, v, t, m)
    ensures Le(BoundSum(n, Gray, v, m.idx, e), ParamSum(p, t, m, e))
    decreases |ModelOf(p, m).params| - e
  {
    hide GraphOk, ForwardsOk, BackwardsOk;
    if e < |ModelOf(p, m).params| {
      SumAtLeastGray(p, n, v, t, m, e + 1);
      ParamInRange(n, m.idx, e);
      SimpleInsts(p, ModelOf(p, m).params[e].via, m.inst);
      assert IsParam(p, m, e, 0);
      MaxCostAtLeast(p, t, m, e, |ParamInsts(p, m, e)|, 0);
    }
  }

  lemma ParamInRange(n: Net, m: nat, e: nat)
    requires NetOk(n) && m < |n.g.models| && e < |n.g.models[m].params|
    ensures n.g.models[m].params[e].idx < |n.g.vars|
  {
    assert ModelOk(n.g, n.g.models[m]);
  }

  /** Checks on skipped variables fail in every world. */
  lemma {:induction false} PenaltiesAtLeastGray(p: Problem, n: Net, t: Truth, m: Ref, e: nat)
    requires NetOk(n) && n.g == p.g && WellFormed(p) && SimpleMaps(p) && IsModel(p, m) && e <= |ModelOf(p, m).checks|
    requires forall x: Ref :: IsVar(p, x) && n.skipV[x.idx] ==> t.v(x) == Inf
    ensures Penalty(n, Gray, m.idx, e) <= Penalties(p, t, m, e)
  {
    hide ForwardsOk, BackwardsOk;
    if e > 0 {
      PenaltiesAtLeastGray(p, n, t, m, e - 1);
      assert ModelOk(n.g, n.g.models[m.idx]);
      if n.skipV[Checked(n.g, m.idx, e - 1)] {
        SimpleInsts(p, ModelOf(p, m).checks[e - 1].via, m.inst);
        assert IsCheck(p, m, e - 1, 0);
        assert !Passes(p, t, CheckRef(p, m, e - 1, 0));
        assert CheckFails(p, t, m, e - 1);
      }
    }
  }

  lemma SkippedCostInfinite(p: Problem, f: Flags, t: Truth)
    requires WellFormed(p) && FlagsFit(p.g, f) && BackwardsOk(p.g) && NetOk(StartNet(p.g, f))
    requires FullSolution(p, StartNet(p.g, f), t) && !Clash(f)
    ensures forall x: Ref :: IsVar(p, x) && f.v[x.idx].skip ==> t.v(x) == Inf
  {
    var n := StartNet(p.g, f);
    forall x: Ref | IsVar(p, x) && f.v[x.idx].skip
      ensures t.v(x) == Inf
    {
      assert !n.given[x.idx] && Cheapest(p, t, x);
      forall ei: nat, i: nat | IsCand(p, x, ei, i)
        ensures t.m(CandRef(p, x, ei, i)) == Inf
      {
        SkippedCand(p, f, t, x, ei, i);
      }
    }
  }

  lemma SkippedCand(p: Problem, f: Flags, t: Truth, x: Ref, ei: nat, i: nat)
    requires WellFormed(p) && FlagsFit(p.g, f) && NetOk(StartNet(p.g, f)) && FullSolution(p, StartNet(p.g, f), t)
    requires IsCand(p, x, ei, i) && f.v[x.idx].skip
    ensures t.m(CandRef(p, x, ei, i)) == Inf
  {
    hide GraphOk, ForwardsOk, BackwardsOk;
    var m := CandRef(p, x, ei, i);
    assert HasEdge(p.g.vars[x.idx].models, m.idx);
    SkipWitness(p.g, f, x.idx, m.idx);
    assert IsModel(p, m);
  }

  /** A model instance costs at least the gray bound of its model, if its parameters do. */
  lemma GrayModel(p: Problem, f: Flags, l: Limits, t: Truth, m: Ref)
    requires WellFormed(p) && SimpleMaps(p) && FlagsFit(p.g, f) && NetOk(StartNet(p.g, f))
    requires FullSolution(p, StartNet(p.g, f), t)
    requires !Clash(f) && LeastBounds(StartNet(p.g, f), Gray, l) && IsModel(p, m) && ParamsAtLeast(p, l.v, t, m)
    ensures Le(l.m[m.idx], t.m(m))
  {
    var n := StartNet(p.g, f);
    hide ForwardsOk, SkipMarked, ParamsAtLeast, SimpleMaps, WellFormed, Attained, Penalty, Penalties, ParamSum,
        BoundSum, Costf;
    if !n.skipM[m.idx] {
      SkippedCostInfinite(p, f, t);
      SumAtLeastGray(p, n, l.v, t, m, 0);
      PenaltiesAtLeastGray(p, n, t, m, |ModelOf(p, m).checks|);
      ModelFine(n, m.idx);
      assert ModelEquation(p, t, m);
      CostfMono(ModelOf(p, m).k, ModelOf(p, m).c,
        Add(Fin(Penalty(n, Gray, m.idx, |ModelOf(p, m).checks|)), BoundSum(n, Gray, l.v, m.idx, 0)), ExactS(p, t, m));
    }
  }

  /** Grounded costs are at least the gray bounds. */
  lemma {:induction false} GrayVar(p: Problem, f: Flags, l: Limits, t: Truth, rank: Ref -> nat, x: Ref)
    requires WellFormed(p) && SimpleMaps(p) && FlagsFit(p.g, f) && NetOk(StartNet(p.g, f))
    requires FullSolution(p, StartNet(p.g, f), t)
    requires !Clash(f) && LeastBounds(StartNet(p.g, f), Gray, l) && Grounded(p, StartNet(p.g, f), t, rank)
    requires IsVar(p, x)
    ensures Le(l.v[x.idx], t.v(x))
    decreases rank(x)
  {
    hide SimpleMaps, FullSolution, SkipMarked, GraphOk, ForwardsOk;
    var n := StartNet(p.g, f);
    if t.v(x).Fin? && !n.given[x.idx] {
      var ei: nat, i: nat :| GroundedBy(p, t, rank, x, ei, i);
      var m := CandRef(p, x, ei, i);
      forall e: nat, j: nat | IsParam(p, m, e, j)
        ensures ParamRef(p, m, e, j).idx < |l.v| && Le(l.v[ParamRef(p, m, e, j).idx], t.v(ParamRef(p, m, e, j)))
      {
        GrayVar(p, f, l, t, rank, ParamRef(p, m, e, j));
      }
      GrayModel(p, f, l, t, m);
      CandReturns(n, Gray, p, x, ei);
    } else if n.given[x.idx] {
      GivenFree(p, n, l, t, x);
    }
  }

  lemma GivenFree(p: Problem, n: Net, l: Limits, t: Truth, x: Ref)
    requires NetOk(n) && n.g == p.g && FullSolution(p, n, t) && LeastBounds(n, Gray, l) && IsVar(p, x) && n.given[x.idx]
    ensures Le(l.v[x.idx], t.v(x))
  {
  }

  /** A candidate edge is a return edge, seen from the other side. */
  lemma CandReturns(n: Net, c: Color, p: Problem, x: Ref, ei: nat)
    requires NetOk(n) && n.g == p.g && IsVar(p, x) && ei < NumEdges(p, x)
    requires c.Gray?
    ensures ReturnsVar(n, c, p.g.vars[x.idx].models[ei].idx, x.idx)
  {
    var m := p.g.vars[x.idx].models[ei].idx;
    assert HasEdge(p.g.models[m].rets, x.idx);
    var j :| 0 <= j < |p.g.models[m].rets| && p.g.models[m].rets[j].idx == x.idx;
  }

  // ---------- true costs are at most the black bounds ----------

  /** Every needed parameter costs at most its derivation, in each of its instances. */
  ghost predicate ParamsAtMost(p: Problem, n: Net, t: Truth, m: Ref, d: Deriv)
    requires NetOk(n) && d.By? && ModelDerives(n, Black, d) && n.g == p.g && d.m == m.idx && IsModel(p, m)
  {
    forall e: nat, j: nat :: IsParam(p, m, e, j) ==>
      Derives(n, Black, ParamRef(p, m, e, j).idx, d.subs[e])
          && Le(t.v(ParamRef(p, m, e, j)), Fin(CostOf(n, Black, d.subs[e])))
  }

  lemma {:induction false} MaxAtMost(p: Problem, t: Truth, m: Ref, e: nat, i: nat, r: real)
    requires IsModel(p, m) && e < |ModelOf(p, m).params| && i <= |ParamInsts(p, m, e)| && r >= 0.0
    requires forall j: nat :: j < i ==> Le(t.v(ParamRef(p, m, e, j)), Fin(r))
    ensures Le(MaxCost(p, t, m, e, i), Fin(r))
  {
    if i > 0 {
      MaxAtMost(p, t, m, e, i - 1, r);
    }
  }

  lemma {:induction false} SumAtMostBlack(p: Problem, n: Net, t: Truth, m: Ref, d: Deriv, e: nat)
    requires NetOk(n) && d.By? && ModelDerives(n, Black, d) && n.g == p.g && d.m == m.idx && IsModel(p, m)
    requires ParamsAtMost(p, n, t, m, d) && e <= |d.subs|
    ensures Le(ParamSum(p, t, m, e), Fin(SubCosts(n, Black, d, e)))
    decreases |d.subs| - e
  {
    hide NetOk, CostOf;
    if e < |d.subs| {
      SumAtMostBlack(p, n, t, m, d, e + 1);
      forall j: nat | j < |ParamInsts(p, m, e)|
        ensures Le(t.v(ParamRef(p, m, e, j)), Fin(CostOf(n, Black, d.subs[e])))
      {
        assert IsParam(p, m, e, j);
      }
      MaxAtMost(p, t, m, e, |ParamInsts(p, m, e)|, CostOf(n, Black, d.subs[e]));
    }
  }

  lemma {:induction false} PenaltiesAtMostBlack(p: Problem, n: Net, t: Truth, m: Ref, e: nat)
    requires NetOk(n) && n.g == p.g && IsModel(p, m) && e <= |ModelOf(p, m).checks|
    ensures Penalties(p, t, m, e) <= Penalty(n, Black, m.idx, e)
  {
    if e > 0 {
      PenaltiesAtMostBlack(p, n, t, m, e - 1);
      assert ModelOk(n.g, n.g.models[m.idx]);
    }
  }

  lemma BlackModelOf(p: Problem, n: Net, t: Truth, m: Ref, d: Deriv)
    requires NetOk(n) && d.By? && ModelDerives(n, Black, d) && n.g == p.g && d.m == m.idx && IsModel(p, m)
    requires FullSolution(p, n, t) && ParamsAtMost(p, n, t, m, d)
    ensures Le(t.m(m), Fin(CostOf(n, Black, d)))
  {
    hide ParamsAtMost, Derives, Penalty, Penalties, SubCosts, ParamSum, CostOf, Costf, GraphOk, ForwardsOk, BackwardsOk;
    ModelFine(n, m.idx);
    CostUnfolds(n, Black, d);
    SumAtMostBlack(p, n, t, m, d, 0);
    PenaltiesAtMostBlack(p, n, t, m, |ModelOf(p, m).checks|);
    assert ModelEquation(p, t, m);
    CostfMono(ModelOf(p, m).k, ModelOf(p, m).c, ExactS(p, t, m), Fin(DerivS(n, Black, d)));
  }

  /** Costs are at most those of any pessimistic derivation. */
  lemma {:induction false} BlackDeriv(p: Problem, n: Net, t: Truth, x: Ref, d: Deriv)
    requires WellFormed(p) && SimpleMaps(p) && NetOk(n) && n.g == p.g && FullSolution(p, n, t)
    requires IsVar(p, x) && Derives(n, Black, x.idx, d)
    ensures Le(t.v(x), Fin(CostOf(n, Black, d)))
    decreases d, 1
  {
    hide SimpleMaps, GraphOk, ForwardsOk, BackwardsOk;
    if d.By? {
      var ei, i := CandOf(p, n, x, d.m);
      if !n.given[x.idx] {
        BlackInstance(p, n, t, CandRef(p, x, ei, i), d);
      } else {
        assert CostOf(n, Black, d) >= 0.0;
      }
    }
  }

  lemma {:induction false} BlackInstance(p: Problem, n: Net, t: Truth, m: Ref, d: Deriv)
    requires WellFormed(p) && SimpleMaps(p) && NetOk(n) && n.g == p.g && FullSolution(p, n, t)
    requires IsModel(p, m) && d.By? && d.m == m.idx && ModelDerives(n, Black, d)
    ensures Le(t.m(m), Fin(CostOf(n, Black, d)))
    decreases d, 0
  {
    hide SimpleMaps, NetOk, FullSolution, CostOf;
    forall e: nat, j: nat | IsParam(p, m, e, j)
      ensures Derives(n, Black, ParamRef(p, m, e, j).idx, d.subs[e])
      ensures Le(t.v(ParamRef(p, m, e, j)), Fin(CostOf(n, Black, d.subs[e])))
    {
      assert Needed(Black, ModelOf(p, m).params[e]);
      BlackDeriv(p, n, t, ParamRef(p, m, e, j), d.subs[e]);
    }
    BlackModelOf(p, n, t, m, d);
  }

  /** A model that returns `x` is behind one of its candidates. */
  lemma CandOf(p: Problem, n: Net, x: Ref, m: nat) returns (ei: nat, i: nat)
    requires SimpleMaps(p) && NetOk(n) && n.g == p.g && IsVar(p, x) && m < |p.g.models|
    requires ReturnsVar(n, Black, m, x.idx)
    ensures IsCand(p, x, ei, i) && CandRef(p, x, ei, i).idx == m
  {
    hide GraphOk, ForwardsOk;
    assert HasEdge(p.g.vars[x.idx].models, m);
    ei :| 0 <= ei < |p.g.vars[x.idx].models| && p.g.vars[x.idx].models[ei].idx == m;
    SimpleInsts(p, p.g.vars[x.idx].models[ei].via, x.inst);
    i := 0;
  }

  /** True costs lie between the bounds. */
  lemma Between(p: Problem, f: Flags, k: Bounded, f': Flags, t: Truth, rank: Ref -> nat)
    requires Scene(p, f, k, f', t) && Grounded(p, StartNet(p.g, f), t, rank)
    ensures forall x: Ref :: IsVar(p, x) ==> Le(k.gray.v[x.idx], t.v(x)) && Le(t.v(x), k.black.v[x.idx])
    ensures forall m: Ref :: IsModel(p, m) ==> Le(k.gray.m[m.idx], t.m(m)) && Le(t.m(m), k.black.m[m.idx])
  {
    var n := StartNet(p.g, f);
    hide SimpleMaps, FullSolution, SkipMarked, GraphOk, ForwardsOk, BackwardsOk, SelectedExactly, KeptFinite, Grounded,
        Derives, CostOf, ModelDerives;
    forall x: Ref | IsVar(p, x)
      ensures Le(k.gray.v[x.idx], t.v(x)) && Le(t.v(x), k.black.v[x.idx])
    {
      GrayVar(p, f, k.gray, t, rank, x);
      if k.black.v[x.idx].Fin? {
        var d :| Derives(n, Black, x.idx, d) && CostOf(n, Black, d) == k.black.v[x.idx].r;
        BlackDeriv(p, n, t, x, d);
      }
    }
    forall m: Ref | IsModel(p, m)
      ensures Le(k.gray.m[m.idx], t.m(m)) && Le(t.m(m), k.black.m[m.idx])
    {
      GrayModel(p, f, k.gray, t, m);
      if k.black.m[m.idx].Fin? {
        var d: Deriv :| d.By? && d.m == m.idx && ModelDerives(n, Black, d) && CostOf(n, Black, d) == k.black.m[m.idx].r;
        BlackInstance(p, n, t, m, d);
      }
    }
  }

  // ---------- the selected graph ----------

  predicate KeptVar(f: Flags, x: nat) {
    x < |f.v| && f.v[x].select
  }

  predicate KeptModel(f: Flags, m: nat) {
    m < |f.m| && f.m[m].selected
  }

  /** The variables that are left keep their edges to the models that are left. */
  ghost predicate RebuiltVars(g: Graph, f': Flags, h: Graph) {
    && |h.vars| == |g.vars|
    && (forall x :: 0 <= x < |g.vars| ==>
        h.vars[x].group == g.vars[x].group && |h.vars[x].models| <= |g.vars[x].models|)
    && (forall x, e :: 0 <= x < |g.vars| ==>
          (e in h.vars[x].models <==> KeptVar(f', x) && e in g.vars[x].models && KeptModel(f', e.idx)))
  }

  /** The models that are left keep their parameters and checks, in some order, and start from their gray bounds.
      The others are out of the game. */
  ghost predicate RebuiltModel(g: Graph, k: Bounded, f': Flags, m: Model, m': Model, i: nat)
    requires i < |k.gray.m|
  {
    && m'.group == m.group && m'.k == m.k && m'.c == m.c && m'.rets == m.rets && m'.cparam <= |m'.params|
    && (if KeptModel(f', i) then
          multiset(m'.params) == multiset(m.params) && multiset(m'.checks) == multiset(m.checks)
              && Fin(m'.cmin) == k.gray.m[i]
        else m'.params == [] && m'.checks == [] && m'.cmin == m.k)
  }

  /** `_prune` and `build`: the nodes that are left, under their old indices, with computed parameters first.
      Building fails if a check of a model that is left looks at a variable that is not. */
  ghost predicate Rebuilt(p: Problem, k: Bounded, f': Flags, p': Problem)
    requires GraphOk(p.g) && |k.gray.m| == |p.g.models|
  {
    && p'.shape == p.shape && p'.umap == p.umap && p'.guard == p.guard && p'.given == p.given && p'.call == p.call
    && RebuiltVars(p.g, f', p'.g) && p'.g.shadows == p.g.shadows && |p'.g.models| == |p.g.models|
    && (forall m :: 0 <= m < |p.g.models| ==> RebuiltModel(p.g, k, f', p.g.models[m], p'.g.models[m], m))
    && (forall m: nat, e: nat :: KeptModel(f', m) && m < |p.g.models| && e < |p.g.models[m].checks| ==>
        KeptVar(f', Checked(p.g, m, e)))
    && (forall m: nat, e: nat :: m < |p'.g.models| && e < |p'.g.models[m].params| ==>
          (e < p'.g.models[m].cparam <==> !Given(p'.g, p'.g.models[m].params[e].idx)))
  }
}
