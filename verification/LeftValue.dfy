/** Values in the graph that is left after pruning: computed as in the whole graph. */
module LeftValues {
  import opened Graphs
  import opened Bounds
  import opened Selection
  import opened Pruner
  import opened Optimum
  import opened PrunedGraph
  import opened Plans
  import Values

  lemma TwoOf<T>(s: seq<T>, i: nat, j: nat)
    requires i < j < |s| && s[i] == s[j]
    ensures multiset(s)[s[i]] >= 2
  {
    assert s == s[..j] + [s[j]] + s[j + 1..];
    assert s[..j][i] == s[i];
  }

  lemma {:induction false} TwoPlaces<T>(s: seq<T>, x: T) returns (i: nat, j: nat)
    requires multiset(s)[x] >= 2
    ensures i < j < |s| && s[i] == s[j] == x
  {
    assert s == [s[0]] + s[1..];
    if s[0] == x {
      assert x in multiset(s[1..]);
      var l :| 0 <= l < |s[1..]| && s[1..][l] == x;
      i, j := 0, l + 1;
    } else {
      i, j := TwoPlaces(s[1..], x);
      i, j := i + 1, j + 1;
    }
  }

  /** Distinct `ex` stay distinct in any order. */
  lemma ExDistinct(ps: seq<Edge>, qs: seq<Edge>)
    requires multiset(ps) == multiset(qs) && forall i, j :: 0 <= i < j < |ps| ==> ps[i].ex != ps[j].ex
    ensures forall i, j :: 0 <= i < j < |qs| ==> qs[i].ex != qs[j].ex
  {
    forall i, j | 0 <= i < j < |qs|
      ensures qs[i].ex != qs[j].ex
    {
      if qs[i] == qs[j] {
        TwoOf(qs, i, j);
        var a, b := TwoPlaces(ps, qs[i]);
      } else {
        assert qs[i] in multiset(qs) && qs[j] in multiset(qs);
        assert qs[i] in ps && qs[j] in ps;
        var a :| 0 <= a < |ps| && ps[a] == qs[i];
        var b :| 0 <= b < |ps| && ps[b] == qs[j];
        assert a != b;
      }
    }
  }

  lemma SameLength(ps: seq<Edge>, qs: seq<Edge>)
    requires multiset(ps) == multiset(qs)
    ensures |ps| == |qs|
  {
    assert |multiset(ps)| == |ps| && |multiset(qs)| == |qs|;
  }

  /** The parameters of a model that is left are still in a known order. */
  lemma ExKept(p: Problem, k: Bounded, f': Flags, p': Problem, m: Ref)
    requires Fits(p, k, f', p') && Values.EdgesOk(p) && IsModel(p, m) && IsModel(p', m) && KeptModel(f', m.idx)
    ensures forall e: nat :: e < |ModelOf(p', m).params| ==> ModelOf(p', m).params[e].ex < |ModelOf(p', m).params|
    ensures forall i, j :: 0 <= i < j < |ModelOf(p', m).params| ==>
        ModelOf(p', m).params[i].ex != ModelOf(p', m).params[j].ex
    ensures forall l: nat :: l < |ModelOf(p', m).params| ==> Values.HasEx(p', m, l)
  {
    hide GraphOk, RebuiltVars, Values.RetShape, Values.ReturnsTo, IsCand, IsCheck, IsParam;
    var ps, qs := ModelOf(p, m).params, ModelOf(p', m).params;
    assert RebuiltModel(p.g, k, f', p.g.models[m.idx], p'.g.models[m.idx], m.idx);
    SameLength(ps, qs);
    forall i, j | 0 <= i < j < |ps|
      ensures ps[i].ex != ps[j].ex
    {
      assert Values.IsExOf(p, m, ps[i].ex, i) && Values.IsExOf(p, m, ps[j].ex, j);
    }
    ExDistinct(ps, qs);
    forall e: nat | e < |qs|
      ensures qs[e].ex < |qs|
    {
      var d := ParamBack(p, k, f', p', m.idx, e);
    }
    forall l: nat | l < |qs|
      ensures Values.HasEx(p', m, l)
    {
      assert Values.HasEx(p, m, l);
      var e: nat :| Values.IsExOf(p, m, l, e);
      assert ps[e] in multiset(ps);
      assert ps[e] in qs;
      var d :| 0 <= d < |qs| && qs[d] == ps[e];
      assert Values.IsExOf(p', m, l, d);
    }
  }

  lemma BlankEx(p: Problem, k: Bounded, f': Flags, p': Problem, m: Ref)
    requires Fits(p, k, f', p') && IsModel(p', m) && !KeptModel(f', m.idx)
    ensures |ModelOf(p', m).params| == 0
  {
    hide GraphOk, RebuiltVars;
    assert RebuiltModel(p.g, k, f', p.g.models[m.idx], p'.g.models[m.idx], m.idx);
  }

  lemma RetsSame(p: Problem, k: Bounded, f': Flags, p': Problem, m: Ref)
    requires Fits(p, k, f', p') && IsModel(p', m)
    ensures IsModel(p, m) && ModelOf(p', m).rets == ModelOf(p, m).rets && p'.shape == p.shape
    ensures p'.umap == p.umap && p'.call == p.call
  {
    SameSpaces(p, k, f', p');
    hide GraphOk, RebuiltVars;
    assert RebuiltModel(p.g, k, f', p.g.models[m.idx], p'.g.models[m.idx], m.idx);
  }

  lemma CandReturnsTo(p: Problem, k: Bounded, f': Flags, p': Problem, x: Ref, ei: nat, i: nat)
    requires Fits(p, k, f', p') && Values.EdgesOk(p) && IsCand(p', x, ei, i) && IsModel(p', CandRef(p', x, ei, i))
    ensures Values.ReturnsTo(p', x, ei, CandRef(p', x, ei, i))
  {
    hide GraphOk, RebuiltModel, Values.RetShape;
    var m := CandRef(p', x, ei, i);
    RetsSame(p, k, f', p', m);
    var e := p'.g.vars[x.idx].models[ei];
    EdgeBack(p, k, f', p', x.idx, e);
    assert e in p.g.vars[x.idx].models;
    var d :| 0 <= d < |p.g.vars[x.idx].models| && p.g.vars[x.idx].models[d] == e;
    assert IsCand(p, x, d, i) && CandRef(p, x, d, i) == m;
    assert Values.ReturnsTo(p, x, d, m);
  }

  lemma EdgesKept(p: Problem, k: Bounded, f': Flags, p': Problem)
    requires Fits(p, k, f', p') && Values.EdgesOk(p) && WellFormed(p')
    ensures Values.EdgesOk(p')
  {
    hide Fits, Values.HasEx, Values.ReturnsTo;
    forall m: Ref | IsModel(p', m)
      ensures forall args: seq<seq<Value>> :: Values.RetShape(p', m, p'.call(m, args))
      ensures forall e: nat :: e < |ModelOf(p', m).params| ==> ModelOf(p', m).params[e].ex < |ModelOf(p', m).params|
      ensures forall i, j :: 0 <= i < j < |ModelOf(p', m).params| ==>
          ModelOf(p', m).params[i].ex != ModelOf(p', m).params[j].ex
      ensures forall l: nat :: l < |ModelOf(p', m).params| ==> Values.HasEx(p', m, l)
    {
      RetsSame(p, k, f', p', m);
      forall args: seq<seq<Value>>
        ensures Values.RetShape(p', m, p'.call(m, args))
      {
        assert Values.RetShape(p, m, p.call(m, args));
      }
      if KeptModel(f', m.idx) {
        ExKept(p, k, f', p', m);
      } else {
        BlankEx(p, k, f', p', m);
      }
    }
    forall m: Ref, l: nat, e: nat, d: nat | Values.IsExOf(p', m, l, e) && Values.IsExOf(p', m, l, d)
      ensures e == d
    {
      assert IsModel(p', m);
      assert ModelOf(p', m).params[e].ex == ModelOf(p', m).params[d].ex;
    }
    forall x: Ref, ei: nat, i: nat | IsCand(p', x, ei, i)
      ensures Values.ReturnsTo(p', x, ei, CandRef(p', x, ei, i))
    {
      CandReturnsTo(p, k, f', p', x, ei, i);
    }
  }

  // ---------- evaluation ----------

  /** The edge of the whole graph that edge `ei` of `x` is left of. */
  ghost function OldEdge(p: Problem, p': Problem, x: Ref, ei: nat): (d: nat) {
    if IsOldEdge(p, p', x, ei) then
      var d: nat :| d < NumEdges(p, x) && p.g.vars[x.idx].models[d] == p'.g.vars[x.idx].models[ei];
      d
    else 0
  }

  ghost predicate IsOldEdge(p: Problem, p': Problem, x: Ref, ei: nat) {
    && IsVar(p, x) && x.idx < |p'.g.vars| && ei < |p'.g.vars[x.idx].models|
    && exists d: nat :: d < NumEdges(p, x) && p.g.vars[x.idx].models[d] == p'.g.vars[x.idx].models[ei]
  }

  /** The same choices, as far as variables are selected, in terms of the whole graph. */
  ghost function OldPlan(p: Problem, p': Problem, f': Flags, plan: Plan): Plan {
    plan.(on := (x: Ref) => plan.on(x) && IsSel(f', V(x.idx)),
          edge := (x: Ref) => OldEdge(p, p', x, plan.edge(x)))
  }

  lemma OldCandidate(p: Problem, k: Bounded, f': Flags, p': Problem, x: Ref, ei: nat, m: Ref)
    requires Fits(p, k, f', p') && Candidates(p', x, ei, m)
    ensures IsVar(p, x) && IsVar(p', x) && ei < NumEdges(p', x) && OldEdge(p, p', x, ei) < NumEdges(p, x)
    ensures p.g.vars[x.idx].models[OldEdge(p, p', x, ei)] == p'.g.vars[x.idx].models[ei]
    ensures Candidates(p, x, OldEdge(p, p', x, ei), m) && KeptModel(f', m.idx)
  {
    hide GraphOk, RebuiltModel;
    var i: nat :| IsCand(p', x, ei, i) && CandRef(p', x, ei, i) == m;
    var d := CandBack(p, k, f', p', x, ei, i);
    var e := p'.g.vars[x.idx].models[ei];
    assert e in p'.g.vars[x.idx].models;
    assert e in p.g.vars[x.idx].models;
    var c: nat :| c < |p.g.vars[x.idx].models| && p.g.vars[x.idx].models[c] == e;
    assert IsOldEdge(p, p', x, ei);
    assert IsCand(p, x, OldEdge(p, p', x, ei), i) && CandRef(p, x, OldEdge(p, p', x, ei), i) == m;
  }

  /** The parameter that supplies argument `l` is the same. */
  lemma SameParamAt(p: Problem, k: Bounded, f': Flags, p': Problem, m: Ref, l: nat)
    requires Fits(p, k, f', p') && Values.EdgesOk(p) && Values.EdgesOk(p') && IsModel(p, m) && IsModel(p', m)
    requires KeptModel(f', m.idx) && l < |ModelOf(p, m).params| == |ModelOf(p', m).params|
    ensures ModelOf(p', m).params[Values.ParamAt(p', m, l)] == ModelOf(p, m).params[Values.ParamAt(p, m, l)]
  {
    hide GraphOk, RebuiltVars, Values.RetShape, Values.ReturnsTo;
    var e' := Values.ParamAt(p', m, l);
    var e := ParamBack(p, k, f', p', m.idx, e');
    assert Values.IsExOf(p, m, l, e) && Values.IsExOf(p, m, l, Values.ParamAt(p, m, l));
  }

  lemma SameInsts(p: Problem, p': Problem, m: Ref, e: nat, e': nat)
    requires IsModel(p, m) && IsModel(p', m) && e < |ModelOf(p, m).params| && e' < |ModelOf(p', m).params|
    requires ModelOf(p', m).params[e'] == ModelOf(p, m).params[e] && p'.shape == p.shape && p'.umap == p.umap
    ensures ParamInsts(p', m, e') == ParamInsts(p, m, e)
    ensures forall j: nat :: IsParam(p, m, e, j) ==>
        IsParam(p', m, e', j) && ParamRef(p', m, e', j) == ParamRef(p, m, e, j)
  {
  }

  lemma SameArgs(p: Problem, k: Bounded, f': Flags, p': Problem, m: Ref, val: Ref -> Value)
    requires Fits(p, k, f', p') && Values.EdgesOk(p) && Values.EdgesOk(p') && IsModel(p, m) && IsModel(p', m)
    requires KeptModel(f', m.idx)
    ensures ArgsOf(p', m, val) == ArgsOf(p, m, val)
  {
    hide GraphOk, RebuiltVars, Values.EdgesOk, Insts;
    RetsSame(p, k, f', p', m);
    SameCount(p, k, f', p', m);
    forall l | 0 <= l < |ModelOf(p, m).params|
      ensures ArgOf(p', m, Values.ParamAt(p', m, l), val) == ArgOf(p, m, Values.ParamAt(p, m, l), val)
    {
      SameParamAt(p, k, f', p', m, l);
      SameInsts(p, p', m, Values.ParamAt(p, m, l), Values.ParamAt(p', m, l));
    }
  }

  lemma SameCount(p: Problem, k: Bounded, f': Flags, p': Problem, m: Ref)
    requires Fits(p, k, f', p') && IsModel(p, m) && IsModel(p', m) && KeptModel(f', m.idx)
    ensures |ModelOf(p', m).params| == |ModelOf(p, m).params|
  {
    hide GraphOk, RebuiltVars;
    assert RebuiltModel(p.g, k, f', p.g.models[m.idx], p'.g.models[m.idx], m.idx);
    SameLength(ModelOf(p, m).params, ModelOf(p', m).params);
  }

  /** A parameter in the whole graph is one in what is left. */
  lemma ParamForth(p: Problem, k: Bounded, f': Flags, p': Problem, m: Ref, e: nat, j: nat) returns (e': nat)
    requires Fits(p, k, f', p') && IsParam(p, m, e, j) && IsModel(p', m) && KeptModel(f', m.idx)
    ensures IsParam(p', m, e', j) && ParamRef(p', m, e', j) == ParamRef(p, m, e, j)
  {
    hide GraphOk, RebuiltVars, Insts;
    RetsSame(p, k, f', p', m);
    assert RebuiltModel(p.g, k, f', p.g.models[m.idx], p'.g.models[m.idx], m.idx);
    var d := ModelOf(p, m).params[e];
    assert d in multiset(ModelOf(p, m).params);
    assert d in ModelOf(p', m).params;
    e' :| 0 <= e' < |ModelOf(p', m).params| && ModelOf(p', m).params[e'] == d;
    SameInsts(p, p', m, e, e');
  }

  /** What a chosen model that is left takes is selected, too. */
  lemma ParamSelected(p: Problem, f: Flags, k: Bounded, f': Flags, m: Ref, e: nat, j: nat)
    requires BoundedOk(k) && k.g == p.g && SelectedExactly(k, f, f') && KeptModel(f', m.idx) && IsParam(p, m, e, j)
    ensures IsSel(f', V(ParamRef(p, m, e, j).idx))
  {
    hide BoundedOk, SelectedExactly;
    assert TakesAt(k, m.idx, e, ParamRef(p, m, e, j).idx);
    SelSucc(k, f, f', M(m.idx), V(ParamRef(p, m, e, j).idx));
  }

  lemma ReturnedSame(p: Problem, k: Bounded, f': Flags, p': Problem, plan: Plan, x: Ref)
    requires Fits(p, k, f', p') && Values.EdgesOk(p) && Values.EdgesOk(p') && IsModel(p', plan.model(x))
    requires Candidates(p', x, plan.edge(x), plan.model(x)) && Values.ReturnsTo(p', x, plan.edge(x), plan.model(x))
    ensures var whole := OldPlan(p, p', f', plan);
      && IsModel(p, plan.model(x)) && Values.ReturnsTo(p, x, whole.edge(x), plan.model(x))
      && Returned(p, whole, x) == Returned(p', plan, x)
  {
    hide GraphOk, RebuiltModel, RebuiltVars, Values.HasEx;
    var m := plan.model(x);
    OldCandidate(p, k, f', p', x, plan.edge(x), m);
    RetsSame(p, k, f', p', m);
    SameArgs(p, k, f', p', m, plan.val);
  }

  /** A selected variable that is computed along a cheapest chain in the graph that is left is so in the whole. */
  lemma ComputedWhole(p: Problem, f: Flags, k: Bounded, f': Flags, t: Truth, p': Problem, plan: Plan, x: Ref)
    requires Worlds(p, f, k, f', t, p') && Values.EdgesOk(p) && Values.EdgesOk(p') && IsSel(f', V(x.idx))
    requires Computed(p', Left(p', f', t), plan, x)
    ensures Computed(p, t, OldPlan(p, p', f', plan), x)
  {
    hide Worlds, Fits, Values.EdgesOk, Returned, Values.ReturnsTo, Candidates, IsParam, WellFormed;
    WorldFits(p, f, k, f', t, p');
    WorldSelected(p, f, k, f', t, p');
    var m := plan.model(x);
    OldCandidate(p, k, f', p', x, plan.edge(x), m);
    ReturnedSame(p, k, f', p', plan, x);
    forall e: nat, j: nat | IsParam(p, m, e, j)
      ensures Earlier(OldPlan(p, p', f', plan), ParamRef(p, m, e, j), x)
    {
      var e' := ParamForth(p, k, f', p', m, e, j);
      ParamSelected(p, f, k, f', m, e, j);
    }
  }

  lemma WorldSelected(p: Problem, f: Flags, k: Bounded, f': Flags, t: Truth, p': Problem)
    requires Worlds(p, f, k, f', t, p')
    ensures BoundedOk(k) && k.g == p.g && SelectedExactly(k, f, f') && |f.v| == |p.g.vars|
  {
    hide WellFormed, SimpleMaps, ForwardsOk, BackwardsOk, NetOk, FullSolution, LeastBounds, KeptFinite, RootLeads,
        Rebuilt;
  }

  function FlaggedGiven(f: Flags): nat -> bool {
    (i: nat) => i < |f.v| && f.v[i].given
  }

  /** So what is evaluated along cheapest chains of the graph that is left is evaluated along cheapest chains of the
      whole graph. */
  lemma PlanWhole(p: Problem, f: Flags, k: Bounded, f': Flags, t: Truth, p': Problem, plan: Plan)
    requires Worlds(p, f, k, f', t, p') && Values.EdgesOk(p) && Values.EdgesOk(p')
    requires PlanOk(p', Left(p', f', t), NoEdges(p'), plan)
    ensures PlanOk(p, t, FlaggedGiven(f), OldPlan(p, p', f', plan))
  {
    hide Worlds, Fits, Values.EdgesOk, Computed, WellFormed, BoundedOk, SelectedExactly;
    WorldFits(p, f, k, f', t, p');
    WorldSelected(p, f, k, f', t, p');
    SameSpaces(p, k, f', p');
    var whole := OldPlan(p, p', f', plan);
    forall x: Ref | whole.on(x)
      ensures IsVar(p, x)
      ensures if FlaggedGiven(f)(x.idx) then whole.val(x) == p.given(x) else Computed(p, t, whole, x)
    {
      GivenKept(p, f, k, f', t, p', x.idx);
      SameGiven(p, k, f', p');
      if !Given(p'.g, x.idx) {
        ComputedWhole(p, f, k, f', t, p', plan, x);
      }
    }
  }

  lemma SameGiven(p: Problem, k: Bounded, f': Flags, p': Problem)
    requires Fits(p, k, f', p')
    ensures p'.given == p.given
  {
    hide GraphOk, RebuiltVars, RebuiltModel;
  }
}
