/** The bounds are tight: in a world where all checks fail, true costs are the black bounds, and where all checks pass
    but those on skipped variables, the gray ones. */
module Reached {
  import opened Costs
  import opened Graphs
  import opened Heaps
  import opened Bounds
  import opened Selection
  import opened Pruner
  import opened Optimum
  import opened PrunedGraph
  import Fixpoints

  /** Failing checks cost what the bounds of colour `c` count. */
  ghost predicate Counted(p: Problem, n: Net, c: Color, t: Truth)
    requires NetOk(n) && n.g == p.g
  {
    forall m: Ref :: IsModel(p, m) && !n.skipM[m.idx] ==> AsCounted(p, n, c, t, m)
  }

  ghost predicate AsCounted(p: Problem, n: Net, c: Color, t: Truth, m: Ref)
    requires NetOk(n) && n.g == p.g && IsModel(p, m)
  {
    Penalties(p, t, m, |ModelOf(p, m).checks|) == Penalty(n, c, m.idx, |ModelOf(p, m).checks|)
  }

  /** A problem without user maps, its grounded true costs, and least bounds of colour `c` that count what fails. */
  ghost predicate World(p: Problem, n: Net, c: Color, l: Limits, t: Truth) {
    && WellFormed(p) && SimpleMaps(p) && NetOk(n) && n.g == p.g && FullSolution(p, n, t) && LeastBounds(n, c, l)
    && Counted(p, n, c, t)
  }

  // ---------- at least ----------

  lemma {:induction false} SumAtLeast(p: Problem, n: Net, c: Color, v: seq<Cost>, t: Truth, m: Ref, e: nat)
    requires NetOk(n) && n.g == p.g && |v| == |p.g.vars| && SimpleMaps(p) && IsModel(p, m)
    requires e <= |ModelOf(p, m).params| && ParamsAtLeast(p, v, t, m)
    ensures Le(BoundSum(n, c, v, m.idx, e), ParamSum(p, t, m, e))
    decreases |ModelOf(p, m).params| - e
  {
    hide GraphOk, ForwardsOk, BackwardsOk;
    if e < |ModelOf(p, m).params| {
      SumAtLeast(p, n, c, v, t, m, e + 1);
      ParamInRange(n, m.idx, e);
      SimpleInsts(p, ModelOf(p, m).params[e].via, m.inst);
      assert IsParam(p, m, e, 0);
      MaxCostAtLeast(p, t, m, e, |ParamInsts(p, m, e)|, 0);
    }
  }

  lemma ModelAtLeast(p: Problem, n: Net, c: Color, l: Limits, t: Truth, m: Ref)
    requires World(p, n, c, l, t) && IsModel(p, m) && ParamsAtLeast(p, l.v, t, m)
    ensures Le(l.m[m.idx], t.m(m))
  {
    hide WellFormed, SimpleMaps, GraphOk, ForwardsOk, BackwardsOk, ParamsAtLeast, Attained, Penalty, Penalties,
        ParamSum, BoundSum, Costf;
    if !n.skipM[m.idx] {
      SumAtLeast(p, n, c, l.v, t, m, 0);
      ModelFine(n, m.idx);
      assert ModelEquation(p, t, m) && AsCounted(p, n, c, t, m);
      CostfMono(ModelOf(p, m).k, ModelOf(p, m).c,
        Add(Fin(Penalty(n, c, m.idx, |ModelOf(p, m).checks|)), BoundSum(n, c, l.v, m.idx, 0)), ExactS(p, t, m));
    }
  }

  /** A candidate edge is a return edge that both colours can use. */
  lemma SimpleReturns(p: Problem, n: Net, c: Color, x: Ref, ei: nat)
    requires SimpleMaps(p) && NetOk(n) && n.g == p.g && IsVar(p, x) && ei < NumEdges(p, x)
    ensures p.g.vars[x.idx].models[ei].idx < |p.g.models|
    ensures ReturnsVar(n, c, p.g.vars[x.idx].models[ei].idx, x.idx)
  {
    hide ForwardsOk;
    var m := p.g.vars[x.idx].models[ei].idx;
    assert HasEdge(p.g.models[m].rets, x.idx);
    var j :| 0 <= j < |p.g.models[m].rets| && p.g.models[m].rets[j].idx == x.idx;
    assert SimpleMap(p, p.g.models[m].rets[j].via);
  }

  lemma {:induction false} VarAtLeast(p: Problem, n: Net, c: Color, l: Limits, t: Truth, rank: Ref -> nat, x: Ref)
    requires World(p, n, c, l, t) && Grounded(p, n, t, rank) && IsVar(p, x)
    ensures Le(l.v[x.idx], t.v(x))
    decreases rank(x)
  {
    hide SimpleMaps, GraphOk, ForwardsOk, BackwardsOk, Attained, AsCounted, ModelEquation;
    if t.v(x).Fin? && !n.given[x.idx] {
      var ei: nat, i: nat :| GroundedBy(p, t, rank, x, ei, i);
      var m := CandRef(p, x, ei, i);
      forall e: nat, j: nat | IsParam(p, m, e, j)
        ensures ParamRef(p, m, e, j).idx < |l.v| && Le(l.v[ParamRef(p, m, e, j).idx], t.v(ParamRef(p, m, e, j)))
      {
        VarAtLeast(p, n, c, l, t, rank, ParamRef(p, m, e, j));
      }
      ModelAtLeast(p, n, c, l, t, m);
      SimpleReturns(p, n, c, x, ei);
    }
  }

  // ---------- at most ----------

  ghost predicate ParamsUnder(p: Problem, n: Net, c: Color, t: Truth, m: Ref, d: Deriv)
    requires NetOk(n) && d.By? && ModelDerives(n, c, d) && n.g == p.g && d.m == m.idx && IsModel(p, m)
  {
    forall e: nat, j: nat :: IsParam(p, m, e, j) ==>
        Derives(n, c, ParamRef(p, m, e, j).idx, d.subs[e])
        && Le(t.v(ParamRef(p, m, e, j)), Fin(CostOf(n, c, d.subs[e])))
  }

  lemma {:induction false} SumUnder(p: Problem, n: Net, c: Color, t: Truth, m: Ref, d: Deriv, e: nat)
    requires NetOk(n) && d.By? && ModelDerives(n, c, d) && n.g == p.g && d.m == m.idx && IsModel(p, m)
    requires SimpleMaps(p) && ParamsUnder(p, n, c, t, m, d) && e <= |d.subs|
    ensures Le(ParamSum(p, t, m, e), Fin(SubCosts(n, c, d, e)))
    decreases |d.subs| - e
  {
    hide NetOk, CostOf;
    if e < |d.subs| {
      SumUnder(p, n, c, t, m, d, e + 1);
      assert Needed(c, n.g.models[d.m].params[e]);
      forall j: nat | j < |ParamInsts(p, m, e)|
        ensures Le(t.v(ParamRef(p, m, e, j)), Fin(CostOf(n, c, d.subs[e])))
      {
        assert IsParam(p, m, e, j);
      }
      MaxAtMost(p, t, m, e, |ParamInsts(p, m, e)|, CostOf(n, c, d.subs[e]));
    }
  }

  lemma ModelUnder(p: Problem, n: Net, c: Color, l: Limits, t: Truth, m: Ref, d: Deriv)
    requires World(p, n, c, l, t) && d.By? && ModelDerives(n, c, d) && d.m == m.idx && IsModel(p, m)
    requires ParamsUnder(p, n, c, t, m, d)
    ensures Le(t.m(m), Fin(CostOf(n, c, d)))
  {
    hide WellFormed, SimpleMaps, ParamsUnder, Derives, Penalty, Penalties, SubCosts, ParamSum, CostOf, Costf, GraphOk,
        ForwardsOk, BackwardsOk, LeastBounds;
    ModelFine(n, m.idx);
    CostUnfolds(n, c, d);
    SumUnder(p, n, c, t, m, d, 0);
    assert ModelEquation(p, t, m) && AsCounted(p, n, c, t, m);
    CostfMono(ModelOf(p, m).k, ModelOf(p, m).c, ExactS(p, t, m), Fin(DerivS(n, c, d)));
  }

  /** A model that returns `x` is behind one of its candidates. */
  lemma CandFor(p: Problem, n: Net, c: Color, x: Ref, m: nat) returns (ei: nat, i: nat)
    requires SimpleMaps(p) && NetOk(n) && n.g == p.g && IsVar(p, x) && m < |p.g.models| && ReturnsVar(n, c, m, x.idx)
    ensures IsCand(p, x, ei, i) && CandRef(p, x, ei, i).idx == m
  {
    hide GraphOk, ForwardsOk;
    assert HasEdge(p.g.vars[x.idx].models, m);
    ei :| 0 <= ei < |p.g.vars[x.idx].models| && p.g.vars[x.idx].models[ei].idx == m;
    SimpleInsts(p, p.g.vars[x.idx].models[ei].via, x.inst);
    i := 0;
  }

  lemma {:induction false} VarUnder(p: Problem, n: Net, c: Color, l: Limits, t: Truth, x: Ref, d: Deriv)
    requires World(p, n, c, l, t) && IsVar(p, x) && Derives(n, c, x.idx, d)
    ensures Le(t.v(x), Fin(CostOf(n, c, d)))
    decreases d, 1
  {
    hide SimpleMaps, GraphOk, ForwardsOk, BackwardsOk, LeastBounds, AsCounted, ModelEquation, ModelDerives;
    if d.By? {
      DerivModel(n, c, x.idx, d);
      var ei, i := CandFor(p, n, c, x, d.m);
      if !n.given[x.idx] {
        ModelInstance(p, n, c, l, t, CandRef(p, x, ei, i), d);
      } else {
        assert CostOf(n, c, d) >= 0.0;
      }
    }
  }

  lemma DerivModel(n: Net, c: Color, x: nat, d: Deriv)
    requires NetOk(n) && Derives(n, c, x, d) && d.By?
    ensures ModelDerives(n, c, d) && d.m < |n.g.models| && ReturnsVar(n, c, d.m, x)
  {
    assert ModelDerives(n, c, d);
  }

  lemma {:induction false} ModelInstance(p: Problem, n: Net, c: Color, l: Limits, t: Truth, m: Ref, d: Deriv)
    requires World(p, n, c, l, t) && IsModel(p, m) && d.By? && d.m == m.idx && ModelDerives(n, c, d)
    ensures Le(t.m(m), Fin(CostOf(n, c, d)))
    decreases d, 0
  {
    hide NetOk, FullSolution, CostOf, LeastBounds, AsCounted;
    forall e: nat, j: nat | IsParam(p, m, e, j)
      ensures Derives(n, c, ParamRef(p, m, e, j).idx, d.subs[e])
      ensures Le(t.v(ParamRef(p, m, e, j)), Fin(CostOf(n, c, d.subs[e])))
    {
      assert Needed(c, ModelOf(p, m).params[e]);
      VarUnder(p, n, c, l, t, ParamRef(p, m, e, j), d.subs[e]);
    }
    ModelUnder(p, n, c, l, t, m, d);
  }

  // ---------- both ----------

  lemma ReachedIn(p: Problem, n: Net, c: Color, l: Limits, t: Truth, rank: Ref -> nat)
    requires World(p, n, c, l, t) && Grounded(p, n, t, rank)
    ensures forall x: Ref :: IsVar(p, x) ==> t.v(x) == l.v[x.idx]
    ensures forall m: Ref :: IsModel(p, m) ==> t.m(m) == l.m[m.idx]
  {
    hide SimpleMaps, FullSolution, GraphOk, ForwardsOk, BackwardsOk, Grounded, CostOf, PreFixpoint,
        Counted;
    forall x: Ref | IsVar(p, x)
      ensures t.v(x) == l.v[x.idx]
    {
      VarAtLeast(p, n, c, l, t, rank, x);
      if l.v[x.idx].Fin? {
        var d :| Derives(n, c, x.idx, d) && CostOf(n, c, d) == l.v[x.idx].r;
        VarUnder(p, n, c, l, t, x, d);
      }
    }
    forall m: Ref | IsModel(p, m)
      ensures t.m(m) == l.m[m.idx]
    {
      assert ParamsAtLeast(p, l.v, t, m);
      ModelAtLeast(p, n, c, l, t, m);
      if l.m[m.idx].Fin? {
        var d: Deriv :| d.By? && d.m == m.idx && ModelDerives(n, c, d) && CostOf(n, c, d) == l.m[m.idx].r;
        ModelInstance(p, n, c, l, t, m, d);
      }
    }
  }

  lemma {:induction false} AllFail(p: Problem, n: Net, t: Truth, m: Ref, e: nat)
    requires SimpleMaps(p) && NetOk(n) && n.g == p.g && WellFormed(p) && (forall w :: !p.guard(w))
    requires IsModel(p, m) && e <= |ModelOf(p, m).checks|
    ensures Penalties(p, t, m, e) == Penalty(n, Black, m.idx, e)
  {
    hide ForwardsOk, BackwardsOk;
    if e > 0 {
      AllFail(p, n, t, m, e - 1);
      SimpleInsts(p, ModelOf(p, m).checks[e - 1].via, m.inst);
      assert IsCheck(p, m, e - 1, 0) && IsShadow(p, CheckRef(p, m, e - 1, 0));
      assert !Passes(p, t, CheckRef(p, m, e - 1, 0));
      assert CheckFails(p, t, m, e - 1);
    }
  }

  /** Black bounds are reached: if no guard holds, every true cost that comes from somewhere is its black bound. */
  lemma BlackReached(p: Problem, n: Net, k: Bounded, t: Truth, rank: Ref -> nat)
    requires WellFormed(p) && SimpleMaps(p) && BothLeast(n, k) && n.g == p.g
    requires FullSolution(p, n, t) && Grounded(p, n, t, rank) && forall w :: !p.guard(w)
    ensures forall x: Ref :: IsVar(p, x) ==> t.v(x) == k.black.v[x.idx]
    ensures forall m: Ref :: IsModel(p, m) ==> t.m(m) == k.black.m[m.idx]
  {
    hide WellFormed, SimpleMaps, GraphOk, ForwardsOk, BackwardsOk, FullSolution, Grounded, LeastBounds, Penalties,
        Penalty;
    forall m: Ref | IsModel(p, m) && !n.skipM[m.idx]
      ensures AsCounted(p, n, Black, t, m)
    {
      AllFail(p, n, t, m, |ModelOf(p, m).checks|);
    }
    ReachedIn(p, n, Black, k.black, t, rank);
  }

  /** And there is such a world for every graph and all flags. */
  lemma BlackWorld(p: Problem, n: Net, k: Bounded) returns (q: Problem, t: Truth)
    requires WellFormed(p) && SimpleMaps(p) && BothLeast(n, k) && n.g == p.g
    ensures q == p.(guard := q.guard) && WellFormed(q) && FullSolution(q, n, t)
    ensures forall x: Ref :: IsVar(p, x) ==> t.v(x) == k.black.v[x.idx]
    ensures forall m: Ref :: IsModel(p, m) ==> t.m(m) == k.black.m[m.idx]
  {
    hide FullSolution, Grounded, LeastBounds;
    q := p.(guard := (w: Ref) => false);
    SameShape(p, q);
    var rank: Ref -> nat;
    t, rank := Fixpoints.FullExists(q, n);
    BlackReached(q, n, k, t, rank);
  }

  lemma SameShape(p: Problem, q: Problem)
    requires WellFormed(p) && SimpleMaps(p) && q == p.(guard := q.guard)
    ensures WellFormed(q) && SimpleMaps(q)
    ensures forall x: Ref :: IsVar(q, x) <==> IsVar(p, x)
    ensures forall m: Ref :: IsModel(q, m) <==> IsModel(p, m)
  {
    hide GraphOk;
    forall x: Ref, ei: nat, i: nat | IsCand(q, x, ei, i)
      ensures IsModel(q, CandRef(q, x, ei, i))
    {
      assert IsCand(p, x, ei, i) && IsModel(p, CandRef(p, x, ei, i));
    }
    forall m: Ref, e: nat, i: nat | IsCheck(q, m, e, i)
      ensures IsShadow(q, CheckRef(q, m, e, i))
    {
      assert IsCheck(p, m, e, i) && IsShadow(p, CheckRef(p, m, e, i));
    }
    forall m: Ref, e: nat, i: nat | IsParam(q, m, e, i)
      ensures IsVar(q, ParamRef(q, m, e, i))
    {
      assert IsParam(p, m, e, i) && IsVar(p, ParamRef(p, m, e, i));
    }
    forall m: Ref, e: nat | IsModel(q, m) && e < |ModelOf(q, m).params|
      ensures e < ModelOf(q, m).cparam <==> !Given(q.g, ModelOf(q, m).params[e].idx)
    {
      assert IsModel(p, m) && ModelOf(p, m) == ModelOf(q, m);
    }
  }

  /** Every check on a variable that is not skipped passes. */
  ghost predicate MostPass(p: Problem, n: Net, t: Truth)
    requires NetOk(n) && n.g == p.g
  {
    forall m: Ref, e: nat, i: nat :: IsCheck(p, m, e, i) && !n.skipM[m.idx] && !n.skipV[Checked(n.g, m.idx, e)] ==>
        CheckRef(p, m, e, i).idx < |p.g.shadows| && Passes(p, t, CheckRef(p, m, e, i))
  }

  lemma {:induction false} SkippedFail(p: Problem, n: Net, t: Truth, m: Ref, e: nat)
    requires SimpleMaps(p) && NetOk(n) && n.g == p.g && WellFormed(p) && MostPass(p, n, t)
    requires m.idx < |n.skipM| && !n.skipM[m.idx]
    requires forall x: Ref :: IsVar(p, x) && n.skipV[x.idx] ==> t.v(x) == Inf
    requires IsModel(p, m) && e <= |ModelOf(p, m).checks|
    ensures Penalties(p, t, m, e) == Penalty(n, Gray, m.idx, e)
  {
    hide ForwardsOk, BackwardsOk;
    if e > 0 {
      SkippedFail(p, n, t, m, e - 1);
      SimpleInsts(p, ModelOf(p, m).checks[e - 1].via, m.inst);
      assert IsCheck(p, m, e - 1, 0) && IsShadow(p, CheckRef(p, m, e - 1, 0));
      if n.skipV[Checked(n.g, m.idx, e - 1)] {
        assert !Passes(p, t, CheckRef(p, m, e - 1, 0));
        assert CheckFails(p, t, m, e - 1);
      } else {
        assert !CheckFails(p, t, m, e - 1);
      }
    }
  }

  /** Gray bounds are reached as well: if every check on a variable that is not skipped passes, every true cost that
      comes from somewhere is its gray bound. */
  lemma GrayReached(p: Problem, f: Flags, k: Bounded, t: Truth, rank: Ref -> nat)
    requires WellFormed(p) && SimpleMaps(p) && FlagsFit(p.g, f) && BackwardsOk(p.g) && !Clash(f)
    requires BothLeast(StartNet(p.g, f), k) && FullSolution(p, StartNet(p.g, f), t)
    requires Grounded(p, StartNet(p.g, f), t, rank) && MostPass(p, StartNet(p.g, f), t)
    ensures forall x: Ref :: IsVar(p, x) ==> t.v(x) == k.gray.v[x.idx]
    ensures forall m: Ref :: IsModel(p, m) ==> t.m(m) == k.gray.m[m.idx]
  {
    hide WellFormed, SimpleMaps, GraphOk, ForwardsOk, BackwardsOk, FullSolution, Grounded, LeastBounds, Penalties,
        Penalty, MostPass, SkipMarked;
    var n := StartNet(p.g, f);
    SkippedCostInfinite(p, f, t);
    forall m: Ref | IsModel(p, m) && !n.skipM[m.idx]
      ensures AsCounted(p, n, Gray, t, m)
    {
      SkippedFail(p, n, t, m, |ModelOf(p, m).checks|);
    }
    ReachedIn(p, n, Gray, k.gray, t, rank);
  }
}
