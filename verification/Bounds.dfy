/** The bounds of the pruner: least derivation costs over the model graph, in two colours. */
module Bounds {
  import opened Costs
  import opened Graphs
  import opened Heaps

  /** A graph with the flags that are fixed before propagation starts. */
  datatype Net = Net(g: Graph, given: seq<bool>, skipV: seq<bool>, skipM: seq<bool>)

  /** Gray bounds leave out user-mapped parameters, since their subset may be empty. */
  predicate Needed(c: Color, e: Edge) {
    c.Black? || !e.via.User?
  }

  /** Black bounds leave out user-mapped returns, for the same reason. */
  predicate Usable(c: Color, e: Edge) {
    c.Gray? || !e.via.User?
  }

  /** Needed edges to `i` in `es`, from position `j` on. */
  function CountTo(es: seq<Edge>, j: nat, i: nat, c: Color): nat
    requires j <= |es|
    decreases |es| - j
  {
    if j == |es| then 0
    else (if es[j].idx == i && Needed(c, es[j]) then 1 else 0) + CountTo(es, j + 1, i, c)
  }

  /** Forward edges are the inverse of parameters, with multiplicity. */
  predicate ForwardsOk(g: Graph) {
    && (forall x, i :: 0 <= x < |g.vars| && 0 <= i < |g.vars[x].fwds| ==> g.vars[x].fwds[i].idx < |g.models|)
    && (forall x, m, c :: 0 <= x < |g.vars| && 0 <= m < |g.models| ==>
          CountTo(g.vars[x].fwds, 0, m, c) == CountTo(g.models[m].params, 0, x, c))
  }

  predicate HasEdge(es: seq<Edge>, i: nat) {
    exists j :: 0 <= j < |es| && es[j].idx == i
  }

  /** Model edges are the inverse of returns. */
  predicate BackwardsOk(g: Graph) {
    && (forall m, j :: 0 <= m < |g.models| && 0 <= j < |g.models[m].rets| ==>
          g.models[m].rets[j].idx < |g.vars| && HasEdge(g.vars[g.models[m].rets[j].idx].models, m))
    && (forall x, i :: 0 <= x < |g.vars| && 0 <= i < |g.vars[x].models| && g.vars[x].models[i].idx < |g.models| ==>
          HasEdge(g.models[g.vars[x].models[i].idx].rets, x))
  }

  predicate NetOk(n: Net) {
    && GraphOk(n.g) && ForwardsOk(n.g) && BackwardsOk(n.g)
    && |n.given| == |n.skipV| == |n.g.vars| && |n.skipM| == |n.g.models|
    && (forall m, j :: 0 <= m < |n.g.models| && !n.skipM[m] && 0 <= j < |n.g.models[m].params| ==>
          !n.skipV[n.g.models[m].params[j].idx])
    && (forall m, j :: 0 <= m < |n.g.models| && !n.skipM[m] && 0 <= j < |n.g.models[m].rets| ==>
          !n.skipV[n.g.models[m].rets[j].idx])
  }

  /** No cycle of free models: `order` ranks what they return above what they take. */
  predicate FreeOrdered(n: Net, order: nat -> nat)
    requires |n.skipM| == |n.g.models|
  {
    forall m, i, j ::
        0 <= m < |n.g.models| && !n.skipM[m] && n.g.models[m].k <= 0.0 && 0 <= i < |n.g.models[m].params|
        && 0 <= j < |n.g.models[m].rets| ==>
      order(n.g.models[m].params[i].idx) < order(n.g.models[m].rets[j].idx)
  }

  predicate FlagsClash(n: Net) {
    |n.given| == |n.skipV| && exists x :: 0 <= x < |n.given| && n.given[x] && n.skipV[x]
  }

  /** The variable that a check looks at. */
  function Checked(g: Graph, m: nat, e: nat): nat
    requires GraphOk(g) && m < |g.models| && e < |g.models[m].checks|
  {
    g.shadows[g.models[m].checks[e].idx]
  }

  /** Penalties that a bound counts among the first `e` checks: all of them, or only those on skipped variables. */
  function Penalty(n: Net, c: Color, m: nat, e: nat): (r: real)
    requires NetOk(n) && m < |n.g.models| && e <= |n.g.models[m].checks|
    ensures r >= 0.0
  {
    if e == 0 then 0.0
    else
      Penalty(n, c, m, e - 1)
      + (if c.Black? || n.skipV[Checked(n.g, m, e - 1)] then n.g.models[m].checks[e - 1].penalty else 0.0)
  }

  // ---------- derivations ----------

  /** A derivation of a variable: it is given, or a model returns it and its parameters are derived. */
  datatype Deriv = Free | By(m: nat, subs: seq<Deriv>)

  ghost predicate ReturnsVar(n: Net, c: Color, m: nat, x: nat)
    requires m < |n.g.models|
  {
    exists j :: 0 <= j < |n.g.models[m].rets| && n.g.models[m].rets[j].idx == x && Usable(c, n.g.models[m].rets[j])
  }

  /** `d` derives the variable `x`. */
  ghost predicate Derives(n: Net, c: Color, x: nat, d: Deriv)
    requires NetOk(n)
    decreases d, 1
  {
    match d
    case Free => x < |n.given| && n.given[x]
    case By(m, subs) => ModelDerives(n, c, d) && ReturnsVar(n, c, m, x)
  }

  /** `d` ends in a model whose needed parameters are derived. */
  ghost predicate ModelDerives(n: Net, c: Color, d: Deriv)
    requires NetOk(n) && d.By?
    decreases d, 0
  {
    && d.m < |n.g.models| && !n.skipM[d.m] && |d.subs| == |n.g.models[d.m].params|
    && (forall j :: 0 <= j < |d.subs| && Needed(c, n.g.models[d.m].params[j]) ==>
          Derives(n, c, n.g.models[d.m].params[j].idx, d.subs[j]))
  }

  ghost function CostOf(n: Net, c: Color, d: Deriv): (r: real)
    requires NetOk(n) && (d.By? ==> ModelDerives(n, c, d))
    ensures r >= 0.0
    decreases d, |(if d.By? then d.subs else [])| + 1
  {
    match d
    case Free => 0.0
    case By(m, subs) =>
      var s := Penalty(n, c, m, |n.g.models[m].checks|) + SubCosts(n, c, d, 0);
      ModelFine(n, m);
      CostfAtLeast(n.g.models[m].k, n.g.models[m].c, Fin(s));
      Costf(n.g.models[m].k, n.g.models[m].c, Fin(s)).r
  }

  /** Costs of the needed subderivations from `j` on. */
  ghost function SubCosts(n: Net, c: Color, d: Deriv, j: nat): (r: real)
    requires NetOk(n) && d.By? && ModelDerives(n, c, d) && j <= |d.subs|
    ensures r >= 0.0
    decreases d, |d.subs| - j
  {
    if j == |d.subs| then 0.0
    else if Needed(c, n.g.models[d.m].params[j]) then
      assert Derives(n, c, n.g.models[d.m].params[j].idx, d.subs[j]);
      SubCosts(n, c, d, j + 1) + CostOf(n, c, d.subs[j])
    else SubCosts(n, c, d, j + 1)
  }

  /** The inverse cost of a derivation's last model. */
  ghost function DerivS(n: Net, c: Color, d: Deriv): (r: real)
    requires NetOk(n) && d.By? && ModelDerives(n, c, d)
  {
    Penalty(n, c, d.m, |n.g.models[d.m].checks|) + SubCosts(n, c, d, 0)
  }

  lemma CostUnfolds(n: Net, c: Color, d: Deriv)
    requires NetOk(n) && d.By? && ModelDerives(n, c, d)
    ensures Fin(CostOf(n, c, d)) == Costf(n.g.models[d.m].k, n.g.models[d.m].c, Fin(DerivS(n, c, d)))
  {
    hide NetOk, Penalty, SubCosts, ModelDerives;
  }

  lemma ModelFine(n: Net, m: nat)
    requires NetOk(n) && m < |n.g.models|
    ensures n.g.models[m].k >= 0.0 && n.g.models[m].c >= 1.0
  {
    assert ModelOk(n.g, n.g.models[m]);
  }

  // ---------- bounds as least derivation costs ----------

  /** Bounds of one colour, for variables and models. */
  datatype Limits = Limits(v: seq<Cost>, m: seq<Cost>)

  /** Summed bounds of the needed parameters from `j` on. */
  function BoundSum(n: Net, c: Color, v: seq<Cost>, m: nat, j: nat): (r: Cost)
    requires NetOk(n) && |v| == |n.g.vars| && m < |n.g.models| && j <= |n.g.models[m].params|
    decreases |n.g.models[m].params| - j
  {
    if j == |n.g.models[m].params| then Fin(0.0)
    else
      var e := n.g.models[m].params[j];
      if Needed(c, e) then Add(BoundSum(n, c, v, m, j + 1), v[e.idx]) else BoundSum(n, c, v, m, j + 1)
  }

  /** What the bound of a model has to be, given those of its parameters. */
  function ModelBound(n: Net, c: Color, v: seq<Cost>, m: nat): Cost
    requires NetOk(n) && |v| == |n.g.vars| && m < |n.g.models|
  {
    Costf(n.g.models[m].k, n.g.models[m].c,
      Add(Fin(Penalty(n, c, m, |n.g.models[m].checks|)), BoundSum(n, c, v, m, 0)))
  }

  predicate Sizes(n: Net, l: Limits) {
    |l.v| == |n.g.vars| && |l.m| == |n.g.models|
  }

  /** The bounds satisfy the equations of their colour as inequalities: no derivation step improves them. */
  ghost predicate PreFixpoint(n: Net, c: Color, l: Limits)
    requires NetOk(n) && Sizes(n, l)
  {
    && (forall m :: 0 <= m < |n.g.models| ==> l.m[m] == if n.skipM[m] then Inf else ModelBound(n, c, l.v, m))
    && (forall m, x :: 0 <= m < |n.g.models| && 0 <= x < |n.g.vars| && ReturnsVar(n, c, m, x) ==> Le(l.v[x], l.m[m]))
    && (forall x :: 0 <= x < |n.g.vars| && n.given[x] ==> Le(l.v[x], Fin(0.0)))
  }

  /** Every finite bound is the cost of a derivation. */
  ghost predicate Attained(n: Net, c: Color, l: Limits)
    requires NetOk(n) && Sizes(n, l)
  {
    && (forall x :: 0 <= x < |l.v| && l.v[x].Fin? ==> exists d :: Derives(n, c, x, d) && CostOf(n, c, d) == l.v[x].r)
    && (forall m :: 0 <= m < |l.m| && l.m[m].Fin? ==>
        exists d: Deriv :: d.By? && d.m == m && ModelDerives(n, c, d) && CostOf(n, c, d) == l.m[m].r)
  }

  /** No derivation of a variable is cheaper than its bound. */
  lemma {:induction false} BoundBelow(n: Net, c: Color, l: Limits, x: nat, d: Deriv)
    requires NetOk(n) && Sizes(n, l) && PreFixpoint(n, c, l) && x < |n.g.vars| && Derives(n, c, x, d)
    ensures Le(l.v[x], Fin(CostOf(n, c, d)))
    decreases d, 1
  {
    if d.By? {
      ModelBoundBelow(n, c, l, d);
    }
  }

  lemma {:induction false} ModelBoundBelow(n: Net, c: Color, l: Limits, d: Deriv)
    requires NetOk(n) && Sizes(n, l) && PreFixpoint(n, c, l) && d.By? && ModelDerives(n, c, d)
    ensures Le(l.m[d.m], Fin(CostOf(n, c, d)))
    decreases d, 0, |d.subs| + 1
  {
    hide NetOk, CostOf, SubCosts, Penalty, BoundSum, Costf;
    SumBelow(n, c, l, d, 0);
    var mo := n.g.models[d.m];
    ModelFine(n, d.m);
    CostUnfolds(n, c, d);
    CostfMono(mo.k, mo.c, Add(Fin(Penalty(n, c, d.m, |mo.checks|)), BoundSum(n, c, l.v, d.m, 0)), Fin(DerivS(n, c, d)));
  }

  lemma {:induction false} SumBelow(n: Net, c: Color, l: Limits, d: Deriv, j: nat)
    requires NetOk(n) && Sizes(n, l) && PreFixpoint(n, c, l) && d.By? && ModelDerives(n, c, d) && j <= |d.subs|
    ensures Le(BoundSum(n, c, l.v, d.m, j), Fin(SubCosts(n, c, d, j)))
    decreases d, 0, |d.subs| - j
  {
    if j < |d.subs| {
      SumBelow(n, c, l, d, j + 1);
      if Needed(c, n.g.models[d.m].params[j]) {
        BoundBelow(n, c, l, n.g.models[d.m].params[j].idx, d.subs[j]);
      }
    }
  }

  /** What a finished propagation has to deliver. */
  ghost predicate LeastBounds(n: Net, c: Color, l: Limits)
    requires NetOk(n)
  {
    Sizes(n, l) && PreFixpoint(n, c, l) && Attained(n, c, l)
  }

  ghost predicate Derivable(n: Net, c: Color, x: nat)
    requires NetOk(n)
  {
    exists d :: Derives(n, c, x, d)
  }

  /** The bound is the least derivation cost, and infinite exactly if there is no derivation. */
  lemma LeastIsMinimum(n: Net, c: Color, l: Limits, x: nat)
    requires NetOk(n) && LeastBounds(n, c, l) && x < |n.g.vars|
    ensures forall d :: Derives(n, c, x, d) ==> Le(l.v[x], Fin(CostOf(n, c, d)))
    ensures l.v[x].Fin? ==> exists d :: Derives(n, c, x, d) && CostOf(n, c, d) == l.v[x].r
    ensures l.v[x].Fin? <==> Derivable(n, c, x)
  {
    forall d | Derives(n, c, x, d)
      ensures Le(l.v[x], Fin(CostOf(n, c, d)))
    {
      BoundBelow(n, c, l, x, d);
    }
    if Derivable(n, c, x) {
      var d :| Derives(n, c, x, d);
      assert Le(l.v[x], Fin(CostOf(n, c, d)));
    }
  }

  /** So the bounds of a colour are unique. */
  lemma LeastUnique(n: Net, c: Color, l: Limits, l': Limits)
    requires NetOk(n) && LeastBounds(n, c, l) && LeastBounds(n, c, l')
    ensures l == l'
  {
    hide PreFixpoint, Attained;
    forall x | 0 <= x < |l.v|
      ensures l.v[x] == l'.v[x]
    {
      LeastIsMinimum(n, c, l, x);
      LeastIsMinimum(n, c, l', x);
    }
    assert l.v == l'.v;
    SameModels(n, c, l, l');
  }

  lemma SameModels(n: Net, c: Color, l: Limits, l': Limits)
    requires NetOk(n) && LeastBounds(n, c, l) && LeastBounds(n, c, l') && l.v == l'.v
    ensures l.m == l'.m
  {
  }

  // ---------- gray and black ----------

  /** A pessimistic derivation is an optimistic one, which costs at most as much. */
  lemma {:induction false} BlackIsGray(n: Net, x: nat, d: Deriv)
    requires NetOk(n) && Derives(n, Black, x, d)
    ensures Derives(n, Gray, x, d) && CostOf(n, Gray, d) <= CostOf(n, Black, d)
    decreases d, 1
  {
    if d.By? {
      BlackModelIsGray(n, d);
    }
  }

  lemma {:induction false} BlackModelIsGray(n: Net, d: Deriv)
    requires NetOk(n) && d.By? && ModelDerives(n, Black, d)
    ensures ModelDerives(n, Gray, d) && CostOf(n, Gray, d) <= CostOf(n, Black, d)
    decreases d, 0, |d.subs| + 1
  {
    hide NetOk, CostOf, SubCosts;
    forall j | 0 <= j < |d.subs| && Needed(Gray, n.g.models[d.m].params[j])
      ensures Derives(n, Gray, n.g.models[d.m].params[j].idx, d.subs[j])
    {
      BlackIsGray(n, n.g.models[d.m].params[j].idx, d.subs[j]);
    }
    SubCostsGray(n, d, 0);
    PenaltyGray(n, d.m, |n.g.models[d.m].checks|);
    ModelCostGray(n, d);
  }

  lemma ModelCostGray(n: Net, d: Deriv)
    requires NetOk(n) && d.By? && ModelDerives(n, Black, d) && ModelDerives(n, Gray, d)
    requires SubCosts(n, Gray, d, 0) <= SubCosts(n, Black, d, 0)
    requires Penalty(n, Gray, d.m, |n.g.models[d.m].checks|) <= Penalty(n, Black, d.m, |n.g.models[d.m].checks|)
    ensures CostOf(n, Gray, d) <= CostOf(n, Black, d)
  {
    hide NetOk, CostOf, SubCosts, Penalty, Costf;
    ModelFine(n, d.m);
    CostUnfolds(n, Gray, d);
    CostUnfolds(n, Black, d);
    CostfMono(n.g.models[d.m].k, n.g.models[d.m].c, Fin(DerivS(n, Gray, d)), Fin(DerivS(n, Black, d)));
  }

  lemma {:induction false} SubCostsGray(n: Net, d: Deriv, j: nat)
    requires NetOk(n) && d.By? && ModelDerives(n, Black, d) && ModelDerives(n, Gray, d) && j <= |d.subs|
    ensures SubCosts(n, Gray, d, j) <= SubCosts(n, Black, d, j)
    decreases d, 0, |d.subs| - j
  {
    if j < |d.subs| {
      SubCostsGray(n, d, j + 1);
      BlackIsGray(n, n.g.models[d.m].params[j].idx, d.subs[j]);
    }
  }

  lemma {:induction false} PenaltyGray(n: Net, m: nat, e: nat)
    requires NetOk(n) && m < |n.g.models| && e <= |n.g.models[m].checks|
    ensures Penalty(n, Gray, m, e) <= Penalty(n, Black, m, e)
  {
    if e > 0 {
      PenaltyGray(n, m, e - 1);
      assert ModelOk(n.g, n.g.models[m]);
    }
  }

  /** The optimistic bound never exceeds the pessimistic one, at any node. */
  lemma GrayBelowBlack(n: Net, gray: Limits, black: Limits)
    requires NetOk(n) && LeastBounds(n, Gray, gray) && LeastBounds(n, Black, black)
    ensures forall x :: 0 <= x < |n.g.vars| ==> Le(gray.v[x], black.v[x])
    ensures forall m :: 0 <= m < |n.g.models| ==> Le(gray.m[m], black.m[m])
  {
    forall x | 0 <= x < |n.g.vars|
      ensures Le(gray.v[x], black.v[x])
    {
      if black.v[x].Fin? {
        var d :| Derives(n, Black, x, d) && CostOf(n, Black, d) == black.v[x].r;
        BlackIsGray(n, x, d);
        BoundBelow(n, Gray, gray, x, d);
      }
    }
    forall m | 0 <= m < |n.g.models|
      ensures Le(gray.m[m], black.m[m])
    {
      if black.m[m].Fin? {
        var d: Deriv :| d.By? && d.m == m && ModelDerives(n, Black, d) && CostOf(n, Black, d) == black.m[m].r;
        BlackModelIsGray(n, d);
        ModelBoundBelow(n, Gray, gray, d);
      }
    }
  }
}
