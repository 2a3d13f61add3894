/** The selected part of a pruned graph: what it contains, and that the true costs solve its equations. */
module PrunedGraph {
  import opened Costs
  import opened Graphs
  import opened Heaps
  import opened Bounds
  import opened Selection
  import opened Pruner
  import opened Optimum

  // ---------- what is selected ----------

  lemma SuccNode(k: Bounded, u: Node, w: Node)
    requires BoundedOk(k) && Succ(k, u, w)
    ensures IsNode(k, w)
  {
    if u.V? {
      var i: nat :| PickedAt(k, u.x, i, w.m);
    } else if j: nat :| TakesAt(k, u.m, j, w.x) {
      TakenVar(k, u.m, j);
    }
  }

  /** Selection is closed. */
  lemma SelSucc(k: Bounded, f: Flags, f': Flags, u: Node, w: Node)
    requires BoundedOk(k) && SelectedExactly(k, f, f') && IsSel(f', u) && Succ(k, u, w)
    ensures IsSel(f', w)
  {
    SuccNode(k, u, w);
    LeadsSelf(k, w);
    LeadsCons(k, u, w, w);
    hide BoundedOk, Leads, Succ, Returns;
    var r :| IsRoot(f, r) && Leads(k, r, u);
    LeadsTrans(k, r, u, w);
  }

  lemma {:induction false} SumFinite(n: Net, v: seq<Cost>, m: nat, j: nat, i: nat)
    requires NetOk(n) && |v| == |n.g.vars| && m < |n.g.models| && j <= i < |n.g.models[m].params|
    requires BoundSum(n, Gray, v, m, j).Fin? && !n.g.models[m].params[i].via.User?
    ensures n.g.models[m].params[i].idx < |v| && v[n.g.models[m].params[i].idx].Fin?
    decreases i - j
  {
    ParamInRange(n, m, j);
    hide NetOk;
    if j < i {
      SumFinite(n, v, m, j + 1, i);
    }
  }

  lemma {:induction false} NeedBetaFinite(k: Bounded, x: nat, i: nat)
    requires BoundedOk(k) && x < |k.g.vars| && i <= |k.g.vars[x].models| && NeedBeta(k, x, i)
    ensures k.black.v[x].Fin?
  {
    hide GraphOk;
    if i > 0 {
      NeedBetaFinite(k, x, i - 1);
    }
  }

  /** Both bounds of the net that the flags describe. */
  ghost predicate BothLeast(n: Net, k: Bounded) {
    NetOk(n) && k.g == n.g && BoundedOk(k) && LeastBounds(n, Gray, k.gray) && LeastBounds(n, Black, k.black)
  }

  /** No user maps on parameters. */
  predicate ParamsSimple(g: Graph) {
    forall m, i :: 0 <= m < |g.models| && 0 <= i < |g.models[m].params| ==> !g.models[m].params[i].via.User?
  }

  lemma PickedFinite(n: Net, k: Bounded, x: nat, i: nat)
    requires BothLeast(n, k) && x < |k.g.vars| && i < |k.g.vars[x].models| && Picked(k, x, i)
    ensures k.gray.m[ModelAt(k, x, i)].Fin?
  {
    GrayBelowBlack(n, k.gray, k.black);
    hide NetOk, LeastBounds;
    if NeedBeta(k, x, i) {
      NeedBetaFinite(k, x, i);
    }
  }

  lemma ModelFinite(n: Net, k: Bounded, m: nat, i: nat)
    requires BothLeast(n, k) && ParamsSimple(k.g) && m < |k.g.models| && i < |k.g.models[m].params| && k.gray.m[m].Fin?
    ensures k.g.models[m].params[i].idx < |k.g.vars| && k.gray.v[k.g.models[m].params[i].idx].Fin?
  {
    hide NetOk, Attained, BoundSum, Penalty;
    SumFinite(n, k.gray.v, m, 0, i);
  }

  lemma SuccFinite(n: Net, k: Bounded, u: Node, w: Node)
    requires BothLeast(n, k) && ParamsSimple(k.g) && IsNode(k, u) && GrayOf(k, u).Fin? && Succ(k, u, w)
    ensures IsNode(k, w) && GrayOf(k, w).Fin?
  {
    SuccNode(k, u, w);
    hide NetOk, LeastBounds, BoundedOk, ParamsSimple, Picked;
    if u.V? {
      var i: nat :| PickedAt(k, u.x, i, w.m);
      PickedFinite(n, k, u.x, i);
    } else if j: nat :| TakesAt(k, u.m, j, w.x) {
      ModelFinite(n, k, u.m, j);
    } else {
      var e: nat :| ChecksAt(k, u.m, e, w.x);
    }
  }

  lemma {:induction false} PathFinite(n: Net, k: Bounded, p: seq<Node>)
    requires BothLeast(n, k) && ParamsSimple(k.g) && IsPath(k, p) && IsNode(k, p[0]) && GrayOf(k, p[0]).Fin?
    ensures IsNode(k, p[|p| - 1]) && GrayOf(k, p[|p| - 1]).Fin?
    decreases |p|
  {
    hide NetOk, LeastBounds, BoundedOk, ParamsSimple, Succ;
    if |p| > 1 {
      var q := p[..|p| - 1];
      assert IsPath(k, q);
      PathFinite(n, k, q);
      SuccFinite(n, k, p[|p| - 2], p[|p| - 1]);
    }
  }

  lemma LedFinite(n: Net, k: Bounded, f: Flags, u: Node)
    requires BothLeast(n, k) && ParamsSimple(k.g) && FlagsFit(k.g, f) && KeptFinite(k, f) && RootLeads(k, f, u)
    ensures IsNode(k, u) && GrayOf(k, u).Fin?
  {
    hide NetOk, LeastBounds, BoundedOk, ParamsSimple, Succ;
    var r :| IsRoot(f, r) && Leads(k, r, u);
    var p :| IsPath(k, p) && p[0] == r && p[|p| - 1] == u;
    PathFinite(n, k, p);
  }

  /** Nothing that is selected is skipped or unreachable. */
  lemma SelectedFinite(g: Graph, f: Flags, k: Bounded, f': Flags, u: Node)
    requires GraphOk(g) && ForwardsOk(g) && BackwardsOk(g) && FlagsFit(g, f) && NetOk(StartNet(g, f))
    requires Pruned(g, f, k, f') && ParamsSimple(g)
    requires IsSel(f', u)
    ensures IsNode(k, u) && GrayOf(k, u).Fin?
  {
    hide LeastBounds, BoundedOk, ParamsSimple, RootLeads, KeptFinite;
    LedFinite(StartNet(g, f), k, f, u);
  }

  lemma BoundsUnique(n: Net, k: Bounded, k': Bounded)
    requires BothLeast(n, k) && BothLeast(n, k')
    ensures k' == k
  {
    hide LeastBounds, NetOk, BoundedOk;
    LeastUnique(n, Gray, k.gray, k'.gray);
    LeastUnique(n, Black, k.black, k'.black);
  }

  /** There is a reason to refuse a run exactly if a given variable is skipped, or a retained node has no finite gray
      bound. */
  lemma RefusedExactly(g: Graph, f: Flags, k: Bounded)
    requires GraphOk(g) && ForwardsOk(g) && BackwardsOk(g) && FlagsFit(g, f) && NetOk(StartNet(g, f)) && ParamsSimple(g)
    requires BothLeast(StartNet(g, f), k)
    ensures (exists u :: Refused(g, f, u)) <==> Clash(f) || !KeptFinite(k, f)
  {
    hide LeastBounds, BoundedOk, ParamsSimple, RootLeads, KeptFinite, NetOk;
    if !Clash(f) && KeptFinite(k, f) {
      if u :| Refused(g, f, u) {
        var k' :| Unreachable(g, f, k', u);
        BoundsUnique(StartNet(g, f), k, k');
        LedFinite(StartNet(g, f), k, f, u);
      }
    } else if Clash(f) {
      var x: nat :| x < |f.v| && f.v[x].given && f.v[x].skip;
      assert Refused(g, f, V(x));
    } else {
      RootRefused(g, f, k);
    }
  }

  lemma RootRefused(g: Graph, f: Flags, k: Bounded)
    requires GraphOk(g) && ForwardsOk(g) && BackwardsOk(g) && FlagsFit(g, f) && NetOk(StartNet(g, f))
    requires BothLeast(StartNet(g, f), k) && !Clash(f) && !KeptFinite(k, f)
    ensures exists u :: Refused(g, f, u)
  {
    hide LeastBounds, BoundedOk, NetOk, Leads;
    var u :| IsRoot(f, u) && IsNode(k, u) && GrayOf(k, u).Inf?;
    LeadsSelf(k, u);
    assert RootLeads(k, f, u);
    assert Unreachable(g, f, k, u);
    assert Refused(g, f, u);
  }

  // ---------- enough models are selected ----------

  /** Once `needbeta` is off, a model that attains the black bound has been picked. */
  lemma {:induction false} NeedBetaOff(k: Bounded, x: nat, i: nat)
    requires BoundedOk(k) && x < |k.g.vars| && i <= |k.g.vars[x].models| && k.black.v[x].Fin? && !NeedBeta(k, x, i)
    ensures exists j :: 0 <= j < i && Picked(k, x, j) && Le(k.black.m[ModelAt(k, x, j)], k.black.v[x])
  {
    hide GraphOk;
    if i > 0 {
      PickedBy(k, x, i - 1);
      if NeedBeta(k, x, i - 1) {
        assert Picked(k, x, i - 1) && Le(k.black.m[ModelAt(k, x, i - 1)], k.black.v[x]);
      } else {
        NeedBetaOff(k, x, i - 1);
      }
    }
  }

  /** A finite bound of a variable that is not given is the bound of one of its models. */
  lemma BoundFromModel(n: Net, c: Color, l: Limits, x: nat) returns (i: nat)
    requires NetOk(n) && LeastBounds(n, c, l) && x < |n.g.vars| && !n.given[x] && l.v[x].Fin?
    ensures i < |n.g.vars[x].models| && n.g.vars[x].models[i].idx < |l.m| && l.m[n.g.vars[x].models[i].idx] == l.v[x]
  {
    hide ForwardsOk, GraphOk, CostOf;
    var d :| Derives(n, c, x, d) && CostOf(n, c, d) == l.v[x].r;
    assert d.By?;
    ModelBoundBelow(n, c, l, d);
    assert ReturnsVar(n, c, d.m, x);
    assert HasEdge(n.g.vars[x].models, d.m);
    i :| 0 <= i < |n.g.vars[x].models| && n.g.vars[x].models[i].idx == d.m;
  }

  /** A finite black bound is attained by a model that is picked. */
  lemma PickedAttains(n: Net, k: Bounded, x: nat) returns (j: nat)
    requires BothLeast(n, k) && x < |k.g.vars| && !n.given[x] && k.black.v[x].Fin?
    ensures j < |k.g.vars[x].models| && Picked(k, x, j) && Le(k.black.m[ModelAt(k, x, j)], k.black.v[x])
  {
    var i := BoundFromModel(n, Black, k.black, x);
    hide NetOk, LeastBounds;
    PickedBy(k, x, i);
    if NeedBeta(k, x, i + 1) {
      assert false;
    } else {
      NeedBetaOff(k, x, i + 1);
      j :| 0 <= j < i + 1 && Picked(k, x, j) && Le(k.black.m[ModelAt(k, x, j)], k.black.v[x]);
    }
  }

  /** Some model of every reachable variable that is not given is picked. */
  lemma SomePicked(n: Net, k: Bounded, x: nat) returns (j: nat)
    requires BothLeast(n, k) && x < |k.g.vars| && !n.given[x] && k.gray.v[x].Fin?
    ensures j < |k.g.vars[x].models| && Picked(k, x, j)
  {
    hide NetOk, LeastBounds, NeedBeta;
    if k.black.v[x].Fin? {
      j := PickedAttains(n, k, x);
    } else {
      j := BoundFromModel(n, Gray, k.gray, x);
    }
  }

  // ---------- the equations of the selected graph ----------

  ghost predicate Worlds(p: Problem, f: Flags, k: Bounded, f': Flags, t: Truth, p': Problem) {
    Scene(p, f, k, f', t) && Rebuilt(p, k, f', p')
  }

  /** True costs lie between the bounds, which they do as soon as they are grounded. */
  ghost predicate Bracketed(p: Problem, k: Bounded, t: Truth)
    requires BoundedOk(k) && k.g == p.g
  {
    && (forall x: Ref :: IsVar(p, x) ==> Le(k.gray.v[x.idx], t.v(x)) && Le(t.v(x), k.black.v[x.idx]))
    && (forall m: Ref :: IsModel(p, m) ==> Le(k.gray.m[m.idx], t.m(m)) && Le(t.m(m), k.black.m[m.idx]))
  }

  lemma PickedKept(p: Problem, f: Flags, k: Bounded, f': Flags, t: Truth, x: nat, i: nat)
    requires Scene(p, f, k, f', t) && IsSel(f', V(x)) && x < |p.g.vars| && i < |p.g.vars[x].models| && Picked(k, x, i)
    ensures KeptModel(f', p.g.vars[x].models[i].idx)
  {
    hide WellFormed, SimpleMaps, ForwardsOk, BackwardsOk, NetOk, FullSolution, LeastBounds, SelectedExactly,
        KeptFinite, Picked;
    assert PickedAt(k, x, i, ModelAt(k, x, i));
    SelSucc(k, f, f', V(x), M(ModelAt(k, x, i)));
  }

  /** The candidate that the black bound stands for costs no more than the bound, in any of its instances. */
  lemma PickedCand(p: Problem, f: Flags, k: Bounded, f': Flags, t: Truth, x: Ref, j: nat)
    requires Scene(p, f, k, f', t) && Bracketed(p, k, t) && IsVar(p, x) && j < |p.g.vars[x.idx].models|
    requires Le(k.black.m[ModelAt(k, x.idx, j)], k.black.v[x.idx])
    ensures IsCand(p, x, j, 0) && Le(t.m(CandRef(p, x, j, 0)), k.black.v[x.idx])
  {
    hide ForwardsOk, BackwardsOk, NetOk, FullSolution, LeastBounds, SelectedExactly, KeptFinite;
    SimpleInsts(p, p.g.vars[x.idx].models[j].via, x.inst);
    assert IsModel(p, CandRef(p, x, j, 0));
  }

  /** Some selected candidate attains the true cost of a selected variable. */
  lemma KeptAttains(p: Problem, f: Flags, k: Bounded, f': Flags, t: Truth, x: Ref) returns (ei: nat, i: nat)
    requires Scene(p, f, k, f', t) && Bracketed(p, k, t) && IsVar(p, x) && IsSel(f', V(x.idx))
    requires !f.v[x.idx].given && t.v(x).Fin?
    ensures IsCand(p, x, ei, i) && t.m(CandRef(p, x, ei, i)) == t.v(x) && KeptModel(f', CandRef(p, x, ei, i).idx)
  {
    hide SimpleMaps, ForwardsOk, BackwardsOk, NetOk, LeastBounds, SelectedExactly, KeptFinite, GraphOk;
    var n := StartNet(p.g, f);
    assert Cheapest(p, t, x);
    ei, i :| IsCand(p, x, ei, i) && t.m(CandRef(p, x, ei, i)) == t.v(x);
    assert IsModel(p, CandRef(p, x, ei, i));
    PickedBy(k, x.idx, ei);
    if Picked(k, x.idx, ei) {
      PickedKept(p, f, k, f', t, x.idx, ei);
    } else {
      var j := PickedAttains(n, k, x.idx);
      PickedCand(p, f, k, f', t, x, j);
      PickedKept(p, f, k, f', t, x.idx, j);
      ei, i := j, 0;
    }
  }

  // ---------- neighbours in the selected graph ----------

  ghost predicate Fits(p: Problem, k: Bounded, f': Flags, p': Problem) {
    WellFormed(p) && |k.gray.m| == |p.g.models| && |f'.v| == |p.g.vars| && |f'.m| == |p.g.models|
        && Rebuilt(p, k, f', p')
  }

  lemma EdgeBack(p: Problem, k: Bounded, f': Flags, p': Problem, x: nat, e: Edge)
    requires GraphOk(p.g) && |k.gray.m| == |p.g.models| && Rebuilt(p, k, f', p') && x < |p.g.vars|
    ensures |p'.g.vars| == |p.g.vars| && |p'.g.models| == |p.g.models|
    ensures e in p'.g.vars[x].models <==> KeptVar(f', x) && e in p.g.vars[x].models && KeptModel(f', e.idx)
    ensures e in p'.g.vars[x].models ==> e.idx < |p.g.models|
  {
    hide RebuiltModel, ModelOk;
  }

  lemma CandBack(p: Problem, k: Bounded, f': Flags, p': Problem, x: Ref, ei': nat, i: nat) returns (ei: nat)
    requires Fits(p, k, f', p') && IsCand(p', x, ei', i)
    ensures IsCand(p, x, ei, i) && CandRef(p, x, ei, i) == CandRef(p', x, ei', i)
    ensures KeptModel(f', CandRef(p, x, ei, i).idx)
  {
    hide GraphOk, RebuiltModel;
    var e := p'.g.vars[x.idx].models[ei'];
    assert e in p'.g.vars[x.idx].models;
    ei :| 0 <= ei < |p.g.vars[x.idx].models| && p.g.vars[x.idx].models[ei] == e;
  }

  lemma CandForth(p: Problem, k: Bounded, f': Flags, p': Problem, x: Ref, ei: nat, i: nat) returns (ei': nat)
    requires Fits(p, k, f', p') && IsCand(p, x, ei, i) && KeptVar(f', x.idx) && KeptModel(f', CandRef(p, x, ei, i).idx)
    ensures IsCand(p', x, ei', i) && CandRef(p', x, ei', i) == CandRef(p, x, ei, i)
  {
    hide GraphOk, RebuiltModel;
    var e := p.g.vars[x.idx].models[ei];
    assert e in p.g.vars[x.idx].models;
    assert e in p'.g.vars[x.idx].models;
    ei' :| 0 <= ei' < |p'.g.vars[x.idx].models| && p'.g.vars[x.idx].models[ei'] == e;
  }

  /** Every parameter of a model that is left is one it had. */
  lemma ParamBack(p: Problem, k: Bounded, f': Flags, p': Problem, m: nat, e': nat) returns (e: nat)
    requires Fits(p, k, f', p') && m < |p'.g.models| && e' < |p'.g.models[m].params|
    ensures KeptModel(f', m) && e < |p.g.models[m].params| && p.g.models[m].params[e] == p'.g.models[m].params[e']
  {
    hide GraphOk, RebuiltVars;
    assert RebuiltModel(p.g, k, f', p.g.models[m], p'.g.models[m], m);
    var d := p'.g.models[m].params[e'];
    assert d in multiset(p'.g.models[m].params);
    assert d in p.g.models[m].params;
    e :| 0 <= e < |p.g.models[m].params| && p.g.models[m].params[e] == d;
  }

  lemma CheckBack(p: Problem, k: Bounded, f': Flags, p': Problem, m: nat, e': nat) returns (e: nat)
    requires Fits(p, k, f', p') && m < |p'.g.models| && e' < |p'.g.models[m].checks|
    ensures KeptModel(f', m) && e < |p.g.models[m].checks| && p.g.models[m].checks[e] == p'.g.models[m].checks[e']
  {
    hide GraphOk, RebuiltVars;
    assert RebuiltModel(p.g, k, f', p.g.models[m], p'.g.models[m], m);
    var d := p'.g.models[m].checks[e'];
    assert d in multiset(p'.g.models[m].checks);
    assert d in p.g.models[m].checks;
    e :| 0 <= e < |p.g.models[m].checks| && p.g.models[m].checks[e] == d;
  }

  lemma RebuiltModelOk(p: Problem, k: Bounded, f': Flags, p': Problem, m: nat)
    requires Fits(p, k, f', p') && m < |p'.g.models|
    ensures ModelOk(p'.g, p'.g.models[m])
  {
    assert ModelOk(p.g, p.g.models[m]);
    hide GraphOk, IsCand, IsCheck, IsParam, IsModel;
    var q := p'.g.models[m];
    assert RebuiltModel(p.g, k, f', p.g.models[m], q, m);
    forall j | 0 <= j < |q.params|
      ensures q.params[j].idx < |p'.g.vars|
    {
      var e := ParamBack(p, k, f', p', m, j);
    }
    forall j | 0 <= j < |q.checks|
      ensures q.checks[j].idx < |p'.g.shadows| && q.checks[j].penalty >= 0.0
    {
      var e := CheckBack(p, k, f', p', m, j);
    }
  }

  lemma RebuiltGraphOk(p: Problem, k: Bounded, f': Flags, p': Problem)
    requires Fits(p, k, f', p')
    ensures GraphOk(p'.g)
  {
    hide RebuiltModel, ModelOk;
    forall m: nat | m < |p'.g.models|
      ensures ModelOk(p'.g, p'.g.models[m])
    {
      RebuiltModelOk(p, k, f', p', m);
    }
    forall x, i | 0 <= x < |p'.g.vars| && 0 <= i < |p'.g.vars[x].models|
      ensures p'.g.vars[x].models[i].idx < |p'.g.models|
    {
      EdgeBack(p, k, f', p', x, p'.g.vars[x].models[i]);
    }
  }

  lemma SameSpaces(p: Problem, k: Bounded, f': Flags, p': Problem)
    requires Fits(p, k, f', p')
    ensures forall x: Ref :: IsVar(p', x) <==> IsVar(p, x)
    ensures forall m: Ref :: IsModel(p', m) <==> IsModel(p, m)
    ensures forall w: Ref :: IsShadow(p', w) <==> IsShadow(p, w)
  {
    forall m: Ref
      ensures IsModel(p', m) <==> IsModel(p, m)
    {
      if m.idx < |p.g.models| {
        assert RebuiltModel(p.g, k, f', p.g.models[m.idx], p'.g.models[m.idx], m.idx);
      }
    }
    hide GraphOk, RebuiltModel;
  }

  /** What is left of a well formed problem is well formed. */
  lemma RebuiltWellFormed(p: Problem, k: Bounded, f': Flags, p': Problem)
    requires Fits(p, k, f', p')
    ensures WellFormed(p')
  {
    hide RebuiltModel, RebuiltVars, ModelOk;
    RebuiltGraphOk(p, k, f', p');
    SameSpaces(p, k, f', p');
    forall x: Ref, ei: nat, i: nat | IsCand(p', x, ei, i)
      ensures IsModel(p', CandRef(p', x, ei, i))
    {
      var e := CandBack(p, k, f', p', x, ei, i);
    }
    forall m: Ref, e: nat, i: nat | IsCheck(p', m, e, i)
      ensures IsShadow(p', CheckRef(p', m, e, i))
    {
      var d := CheckBack(p, k, f', p', m.idx, e);
      assert IsCheck(p, m, d, i) && CheckRef(p, m, d, i) == CheckRef(p', m, e, i);
    }
    forall m: Ref, e: nat, i: nat | IsParam(p', m, e, i)
      ensures IsVar(p', ParamRef(p', m, e, i))
    {
      var d := ParamBack(p, k, f', p', m.idx, e);
      assert IsParam(p, m, d, i) && ParamRef(p, m, d, i) == ParamRef(p', m, e, i);
    }
  }

  // ---------- true costs of the selected graph ----------

  /** The cheapest candidate behind the edges below `ei`, and the first `i` instances of edge `ei`. */
  ghost function BestTo(p: Problem, tm: Ref -> Cost, x: Ref, ei: nat, i: nat): Cost
    requires IsVar(p, x) && ei <= NumEdges(p, x) && (if ei < NumEdges(p, x) then i <= |CandInsts(p, x, ei)| else i == 0)
    decreases ei, i
  {
    if i > 0 then Min(BestTo(p, tm, x, ei, i - 1), tm(CandRef(p, x, ei, i - 1)))
    else if ei > 0 then BestTo(p, tm, x, ei - 1, |CandInsts(p, x, ei - 1)|)
    else Inf
  }

  predicate Before(p: Problem, x: Ref, e: nat, j: nat, ei: nat, i: nat) {
    IsCand(p, x, e, j) && (e < ei || (e == ei && j < i))
  }

  lemma {:induction false} BestToIs(p: Problem, tm: Ref -> Cost, x: Ref, ei: nat, i: nat)
    requires IsVar(p, x) && ei <= NumEdges(p, x) && (if ei < NumEdges(p, x) then i <= |CandInsts(p, x, ei)| else i == 0)
    ensures forall e: nat, j: nat :: Before(p, x, e, j, ei, i) ==> Le(BestTo(p, tm, x, ei, i), tm(CandRef(p, x, e, j)))
    ensures BestTo(p, tm, x, ei, i).Inf?
        || exists e: nat, j: nat :: Before(p, x, e, j, ei, i) && tm(CandRef(p, x, e, j)) == BestTo(p, tm, x, ei, i)
    decreases ei, i
  {
    if i > 0 {
      BestToIs(p, tm, x, ei, i - 1);
      assert Before(p, x, ei, i - 1, ei, i);
      forall e: nat, j: nat
        ensures Before(p, x, e, j, ei, i) <==> Before(p, x, e, j, ei, i - 1) || (e == ei && j == i - 1)
      {
      }
    } else if ei > 0 {
      BestToIs(p, tm, x, ei - 1, |CandInsts(p, x, ei - 1)|);
      forall e: nat, j: nat
        ensures Before(p, x, e, j, ei, 0) <==> Before(p, x, e, j, ei - 1, |CandInsts(p, x, ei - 1)|)
      {
      }
    }
  }

  /** Costs of selected models stay; the others are out of the game. */
  ghost function LeftModel(p': Problem, f': Flags, t: Truth): Ref -> Cost {
    (m: Ref) => if KeptModel(f', m.idx) then t.m(m)
                else if m.idx < |p'.g.models| then Fin(p'.g.models[m.idx].k) else Inf
  }

  /** Costs of selected variables stay; one that selected models only happen to return has the cheapest of these. */
  ghost function Left(p': Problem, f': Flags, t: Truth): Truth {
    Truth((x: Ref) => if IsSel(f', V(x.idx)) then t.v(x)
                      else if !IsVar(p', x) || Given(p'.g, x.idx) then Fin(0.0)
                      else BestTo(p', LeftModel(p', f', t), x, NumEdges(p', x), 0),
          LeftModel(p', f', t))
  }

  lemma WorldFits(p: Problem, f: Flags, k: Bounded, f': Flags, t: Truth, p': Problem)
    requires Worlds(p, f, k, f', t, p')
    ensures Fits(p, k, f', p')
  {
    hide WellFormed, SimpleMaps, ForwardsOk, BackwardsOk, NetOk, FullSolution, LeastBounds, KeptFinite, RootLeads;
  }

  /** A selected variable is given in the selected graph exactly if its given flag is set. */
  lemma GivenKept(p: Problem, f: Flags, k: Bounded, f': Flags, t: Truth, p': Problem, x: nat)
    requires Worlds(p, f, k, f', t, p') && IsSel(f', V(x)) && x < |p.g.vars|
    ensures Given(p'.g, x) <==> f.v[x].given
  {
    hide WellFormed, FullSolution, LeastBounds, KeptFinite, SelectedExactly, NetOk, ForwardsOk, BackwardsOk,
        SimpleMaps, GraphOk, RebuiltModel, SkipMarked;
    if f.v[x].given {
      if |p'.g.vars[x].models| > 0 {
        var e := p'.g.vars[x].models[0];
        EdgeBack(p, k, f', p', x, e);
        GivenModelsOut(p, f, k, f', t, x, e);
      }
    } else {
      SelectedVarFinite(p, f, k, f', t, x);
      var j := SomePicked(StartNet(p.g, f), k, x);
      PickedKept(p, f, k, f', t, x, j);
      SelectedKept(k, f, f', x);
      assert p.g.vars[x].models[j] in p'.g.vars[x].models;
    }
  }

  lemma SelectedKept(k: Bounded, f: Flags, f': Flags, x: nat)
    requires BoundedOk(k) && SelectedExactly(k, f, f') && IsSel(f', V(x))
    ensures KeptVar(f', x)
  {
    hide BoundedOk, RootLeads, Returns;
  }

  lemma SelectedVarFinite(p: Problem, f: Flags, k: Bounded, f': Flags, t: Truth, x: nat)
    requires Scene(p, f, k, f', t) && IsSel(f', V(x))
    ensures x < |k.gray.v| && k.gray.v[x].Fin?
  {
    hide WellFormed, FullSolution, LeastBounds, KeptFinite, SelectedExactly, NetOk, ForwardsOk, BackwardsOk;
    SelectedFinite(p.g, f, k, f', V(x));
  }

  lemma SelectedModelFinite(p: Problem, f: Flags, k: Bounded, f': Flags, t: Truth, m: nat)
    requires Scene(p, f, k, f', t) && KeptModel(f', m)
    ensures m < |k.gray.m| && k.gray.m[m].Fin? && m < |f.m| && !SkipMarked(p.g, f, m)
  {
    hide WellFormed, FullSolution, KeptFinite, SelectedExactly, ForwardsOk, BackwardsOk, SkipMarked, GraphOk;
    assert IsSel(f', M(m));
    SelectedFinite(p.g, f, k, f', M(m));
    var n := StartNet(p.g, f);
    assert n.skipM[m] == SkipMarked(p.g, f, m);
  }

  lemma GivenModelsOut(p: Problem, f: Flags, k: Bounded, f': Flags, t: Truth, x: nat, e: Edge)
    requires Scene(p, f, k, f', t) && x < |p.g.vars| && f.v[x].given && e in p.g.vars[x].models
    ensures !KeptModel(f', e.idx)
  {
    hide WellFormed, FullSolution, LeastBounds, KeptFinite, SelectedExactly, NetOk, ForwardsOk, BackwardsOk,
        SimpleMaps, SkipMarked, GraphOk;
    assert HasEdge(p.g.vars[x].models, e.idx);
    if KeptModel(f', e.idx) {
      SelectedModelFinite(p, f, k, f', t, e.idx);
      SkipWitness(p.g, f, x, e.idx);
    }
  }
}
