/** A graph with free models in a cycle where selection loses a black bound. */
module FreeLoops {
  import opened Costs
  import opened Graphs
  import opened Heaps
  import opened Bounds
  import opened Selection
  import opened Pruner
  import opened Optimum
  import opened PrunedGraph
  import opened Attainment

  function FreeModel(param: nat, ret: nat): Model {
    Model(0, 0.0, 1.0, 0.0, [], 1, [Edge(param, Ident, 0)], [Edge(ret, Ident, 0)])
  }

  /** Variable 0 can be had from 1 or from the given 2, and variable 1 from 0; all models are free. */
  function FreeLoop(): Graph {
    Graph([Var(0, [Edge(0, Ident, 0), Edge(1, Ident, 0)], [Edge(2, Ident, 0)]),
           Var(0, [Edge(2, Ident, 0)], [Edge(0, Ident, 0)]),
           Var(0, [], [Edge(1, Ident, 0)])],
          [FreeModel(1, 0), FreeModel(2, 0), FreeModel(0, 1)], [])
  }

  const FREE: Net := Net(FreeLoop(), [false, false, true], [false, false, false], [false, false, false])

  const ZEROS := Limits([Fin(0.0), Fin(0.0), Fin(0.0)], [Fin(0.0), Fin(0.0), Fin(0.0)])

  /** The rule for choosing models picks the loop for variable 0, and not the model that takes the given variable. */
  lemma LoopIsPicked()
    ensures var k := Bounded(FreeLoop(), ZEROS, ZEROS);
      BoundedOk(k) && Picked(k, 0, 0) && !Picked(k, 0, 1) && ModelAt(k, 0, 0) == 0 && ModelAt(k, 0, 1) == 1
  {
    var k := Bounded(FreeLoop(), ZEROS, ZEROS);
    assert NeedBeta(k, 0, 0);
    assert Picked(k, 0, 0);
    assert !NeedBeta(k, 0, 1);
  }

  /** Without model 1 neither variable of the loop can be derived, though both have black bound 0. */
  lemma {:induction false} LoopUnderivable(n: Net, x: nat, d: Deriv)
    requires NetOk(n) && n.g == FreeLoop() && n.given == FREE.given && n.skipM[1] && x < 2
    ensures !Derives(n, Black, x, d)
    decreases d
  {
    if d.By? && d.m < 3 && |d.subs| == 1 {
      LoopUnderivable(n, 0, d.subs[0]);
      LoopUnderivable(n, 1, d.subs[0]);
      assert FreeLoop().models[0].params[0].idx == 1 && FreeLoop().models[2].params[0].idx == 0;
      assert Needed(Black, FreeLoop().models[0].params[0]) && Needed(Black, FreeLoop().models[2].params[0]);
    }
  }

  lemma FreeForwards()
    ensures ForwardsOk(FreeLoop())
  {
    forall x, m, c | 0 <= x < 3 && 0 <= m < 3
      ensures CountTo(FreeLoop().vars[x].fwds, 0, m, c) == CountTo(FreeLoop().models[m].params, 0, x, c)
    {
      CountOne(FreeLoop().vars[x].fwds, m, c);
      CountOne(FreeLoop().models[m].params, x, c);
    }
  }

  lemma EdgeAt(es: seq<Edge>, j: nat)
    requires j < |es|
    ensures HasEdge(es, es[j].idx)
  {
  }

  lemma FreeBackwards()
    ensures BackwardsOk(FreeLoop())
  {
    var g := FreeLoop();
    EdgeAt(g.vars[0].models, 0);
    EdgeAt(g.vars[0].models, 1);
    EdgeAt(g.vars[1].models, 0);
    EdgeAt(g.models[0].rets, 0);
    EdgeAt(g.models[1].rets, 0);
    EdgeAt(g.models[2].rets, 0);
    hide HasEdge;
  }

  lemma FreeGraph()
    ensures GraphOk(FreeLoop())
  {
  }

  lemma FreeNetOk()
    ensures NetOk(FREE)
  {
    hide HasEdge, CountTo, ForwardsOk, BackwardsOk, GraphOk;
    FreeGraph();
    FreeForwards();
    FreeBackwards();
  }

  lemma CountOne(es: seq<Edge>, i: nat, c: Color)
    requires |es| == 1 && es[0].via == Ident
    ensures CountTo(es, 0, i, c) == if es[0].idx == i then 1 else 0
  {
  }

  /** A derivation over a single free parameter is free. */
  lemma FreeStep(c: Color, m: nat, x: nat, sub: Deriv)
    requires NetOk(FREE) && m < 3 && FREE.g.models[m].rets[0].idx == x
    requires Derives(FREE, c, FREE.g.models[m].params[0].idx, sub) && CostOf(FREE, c, sub) == 0.0
    ensures Derives(FREE, c, x, By(m, [sub])) && CostOf(FREE, c, By(m, [sub])) == 0.0
  {
    var d := By(m, [sub]);
    hide NetOk;
    assert FREE.g.models[m].params == [FREE.g.models[m].params[0]];
    assert ModelDerives(FREE, c, d);
    assert FREE.g.models[m].rets[0].idx == x && Usable(c, FREE.g.models[m].rets[0]);
    assert ReturnsVar(FREE, c, m, x);
    assert SubCosts(FREE, c, d, 1) == 0.0;
    assert SubCosts(FREE, c, d, 0) == 0.0;
    assert Penalty(FREE, c, m, 0) == 0.0;
    CostUnfolds(FREE, c, d);
  }

  lemma ZeroDerivs(c: Color) returns (x0: Deriv, x1: Deriv, m0: Deriv)
    requires NetOk(FREE)
    ensures Derives(FREE, c, 0, x0) && CostOf(FREE, c, x0) == 0.0 && x0.By? && x0.m == 1
    ensures Derives(FREE, c, 1, x1) && CostOf(FREE, c, x1) == 0.0 && x1.By? && x1.m == 2
    ensures Derives(FREE, c, 0, m0) && CostOf(FREE, c, m0) == 0.0 && m0.By? && m0.m == 0
    ensures Derives(FREE, c, 2, Free) && CostOf(FREE, c, Free) == 0.0
  {
    hide NetOk;
    x0 := By(1, [Free]);
    FreeStep(c, 1, 0, Free);
    x1 := By(2, [x0]);
    FreeStep(c, 2, 1, x0);
    m0 := By(0, [x1]);
    FreeStep(c, 0, 0, x1);
  }

  lemma ZerosAttained(c: Color)
    requires NetOk(FREE)
    ensures Attained(FREE, c, ZEROS)
  {
    hide NetOk, CostOf;
    var x0, x1, m0 := ZeroDerivs(c);
    forall x: nat | x < 3
      ensures exists d :: Derives(FREE, c, x, d) && CostOf(FREE, c, d) == ZEROS.v[x].r
    {
      var d := if x == 0 then x0 else if x == 1 then x1 else Free;
      assert Derives(FREE, c, x, d) && CostOf(FREE, c, d) == 0.0;
    }
    forall m: nat | m < 3
      ensures exists d: Deriv :: d.By? && d.m == m && ModelDerives(FREE, c, d) && CostOf(FREE, c, d) == ZEROS.m[m].r
    {
      var d := if m == 0 then m0 else if m == 1 then x0 else x1;
      assert d.By? && d.m == m && ModelDerives(FREE, c, d) && CostOf(FREE, c, d) == 0.0;
    }
  }

  lemma ZeroBound(c: Color, m: nat)
    requires NetOk(FREE) && m < 3
    ensures ModelBound(FREE, c, ZEROS.v, m) == Fin(0.0)
  {
    hide NetOk;
    assert FREE.g.models[m].params == [FREE.g.models[m].params[0]];
    assert BoundSum(FREE, c, ZEROS.v, m, 1) == Fin(0.0);
    assert BoundSum(FREE, c, ZEROS.v, m, 0) == Fin(0.0);
    assert Penalty(FREE, c, m, 0) == 0.0;
  }

  /** All bounds of the free loop are zero, in both colours. */
  lemma ZerosAreLeast(c: Color)
    ensures NetOk(FREE) && LeastBounds(FREE, c, ZEROS)
  {
    FreeNetOk();
    hide NetOk, Attained, ModelBound;
    ZerosAttained(c);
    ZeroBound(c, 0);
    ZeroBound(c, 1);
    ZeroBound(c, 2);
  }

  predicate InLoop(u: Node) {
    u == V(0) || u == V(1) || u == M(0) || u == M(2)
  }

  lemma LoopSucc(k: Bounded, u: Node, w: Node)
    requires k == Bounded(FreeLoop(), ZEROS, ZEROS) && BoundedOk(k) && InLoop(u) && Succ(k, u, w)
    ensures InLoop(w)
  {
    LoopIsPicked();
    if u.V? {
      var i: nat :| PickedAt(k, u.x, i, w.m);
      assert u.x == 0 ==> i == 0;
      assert u.x == 1 ==> i == 0;
    }
  }

  lemma {:induction false} LoopPath(k: Bounded, p: seq<Node>)
    requires k == Bounded(FreeLoop(), ZEROS, ZEROS) && BoundedOk(k) && IsPath(k, p) && InLoop(p[0])
    ensures InLoop(p[|p| - 1])
    decreases |p|
  {
    hide BoundedOk, Succ;
    if |p| > 1 {
      var q := p[..|p| - 1];
      assert IsPath(k, q);
      LoopPath(k, q);
      LoopSucc(k, p[|p| - 2], p[|p| - 1]);
    }
  }

  lemma LoopSelected(f: Flags, f': Flags)
    requires forall u :: IsRoot(f, u) <==> u == V(0)
    requires BoundedOk(Bounded(FreeLoop(), ZEROS, ZEROS)) && SelectedExactly(Bounded(FreeLoop(), ZEROS, ZEROS), f, f')
    ensures IsSel(f', V(0)) && !KeptModel(f', 1)
  {
    hide BoundedOk, Succ;
    var k := Bounded(FreeLoop(), ZEROS, ZEROS);
    LeadsSelf(k, V(0));
    assert IsRoot(f, V(0));
    if RootLeads(k, f, M(1)) {
      var r :| IsRoot(f, r) && Leads(k, r, M(1));
      var p :| IsPath(k, p) && p[0] == r && p[|p| - 1] == M(1);
      LoopPath(k, p);
    }
    assert IsSel(f', M(1)) == KeptModel(f', 1);
  }

  lemma OutOfNet(f': Flags)
    requires !KeptModel(f', 1)
    ensures SelectedNet(FREE, f').skipM[1] && SelectedNet(FREE, f').given == FREE.given
    ensures SelectedNet(FREE, f').g == FreeLoop()
  {
  }

  lemma LoopSize()
    ensures |FreeLoop().vars| == 3
  {
  }

  /** With free models the guarantee fails: variable 0 is retained and its black bound is 0, but no derivation of it
      is left in the selection. */
  lemma FreeLoopLost(f: Flags, f': Flags)
    requires forall u :: IsRoot(f, u) <==> u == V(0)
    requires BoundedOk(Bounded(FreeLoop(), ZEROS, ZEROS)) && SelectedExactly(Bounded(FreeLoop(), ZEROS, ZEROS), f, f')
    ensures BothLeast(FREE, Bounded(FreeLoop(), ZEROS, ZEROS)) && IsSel(f', V(0)) && ZEROS.v[0] == Fin(0.0)
    ensures NetOk(SelectedNet(FREE, f')) && forall d :: !Derives(SelectedNet(FREE, f'), Black, 0, d)
    ensures forall order :: !Tight(FREE, Bounded(FreeLoop(), ZEROS, ZEROS), f', order)
  {
    hide FreeLoop, BoundedOk, NetOk, LeastBounds, Succ, SelectedExactly, IsSel, KeptModel, Derives, SelectedNet;
    var k := Bounded(FreeLoop(), ZEROS, ZEROS);
    ZerosAreLeast(Gray);
    ZerosAreLeast(Black);
    SelectedNetOk(FREE, f');
    LoopSelected(f, f');
    OutOfNet(f');
    LoopSize();
    forall d
      ensures !Derives(SelectedNet(FREE, f'), Black, 0, d)
    {
      LoopUnderivable(SelectedNet(FREE, f'), 0, d);
    }
    forall order
      ensures !Tight(FREE, k, f', order)
    {
      if Tight(FREE, k, f', order) {
        var d := TightSurvives(FREE, k, f, f', order, 0);
      }
    }
  }
}
