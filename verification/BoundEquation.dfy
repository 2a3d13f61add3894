/** What the least bounds add up, written out as sums over edges and checks, for every kind of map. */
module BoundEquations {
  import opened Costs
  import opened Graphs
  import opened Heaps
  import opened Bounds
  import opened Sums
  import opened PrunedGraph

  /** A check counts with its penalty: always for the pessimist, and for the optimist if its variable is skipped. */
  ghost function ForCheck(n: Net, c: Color): Check -> Cost {
    (e: Check) =>
      if c == Black || (e.idx < |n.g.shadows| && n.g.shadows[e.idx] < |n.skipV| && n.skipV[n.g.shadows[e.idx]])
      then Fin(e.penalty)
      else Fin(0.0)
  }

  /** A parameter counts once with its bound; the optimist does without those that may have no instances. */
  ghost function ForParam(c: Color, l: Limits): Edge -> Cost {
    (e: Edge) => if (c == Gray && e.via.User?) || e.idx >= |l.v| then Fin(0.0) else l.v[e.idx]
  }

  lemma PenaltyNext(n: Net, c: Color, m: nat, e: nat)
    requires NetOk(n) && m < |n.g.models| && 0 < e <= |n.g.models[m].checks|
    ensures Penalty(n, c, m, e) == Penalty(n, c, m, e - 1) + ForCheck(n, c)(n.g.models[m].checks[e - 1]).r
    ensures ForCheck(n, c)(n.g.models[m].checks[e - 1]).Fin?
  {
    hide ForwardsOk, BackwardsOk;
    assert ModelOk(n.g, n.g.models[m]);
  }

  lemma {:induction false} PenaltyAdds(n: Net, c: Color, m: nat, e: nat)
    requires NetOk(n) && m < |n.g.models| && e <= |n.g.models[m].checks|
    ensures Fin(Penalty(n, c, m, e)) == Sum(n.g.models[m].checks[..e], ForCheck(n, c))
  {
    hide NetOk, ForCheck;
    if e == 0 {
      NoPenalty(n, c, m);
    } else {
      PenaltyAdds(n, c, m, e - 1);
      PenaltyNext(n, c, m, e);
      var s := n.g.models[m].checks[..e];
      SumRemove(s, ForCheck(n, c), e - 1);
      assert s[..e - 1] + s[e..] == n.g.models[m].checks[..e - 1];
    }
  }

  lemma NoPenalty(n: Net, c: Color, m: nat)
    requires NetOk(n) && m < |n.g.models|
    ensures Penalty(n, c, m, 0) == 0.0
  {
    hide NetOk;
  }

  lemma ParamNext(n: Net, c: Color, l: Limits, m: nat, j: nat)
    requires NetOk(n) && Sizes(n, l) && m < |n.g.models| && j < |n.g.models[m].params|
    ensures BoundSum(n, c, l.v, m, j) == Add(BoundSum(n, c, l.v, m, j + 1), ForParam(c, l)(n.g.models[m].params[j]))
  {
    hide ForwardsOk, BackwardsOk;
    assert ModelOk(n.g, n.g.models[m]);
  }

  lemma {:induction false} ParamsAdd(n: Net, c: Color, l: Limits, m: nat, j: nat)
    requires NetOk(n) && Sizes(n, l) && m < |n.g.models| && j <= |n.g.models[m].params|
    ensures BoundSum(n, c, l.v, m, j) == Sum(n.g.models[m].params[j..], ForParam(c, l))
    decreases |n.g.models[m].params| - j
  {
    hide NetOk, ForParam;
    if j < |n.g.models[m].params| {
      ParamsAdd(n, c, l, m, j + 1);
      ParamNext(n, c, l, m, j);
      assert n.g.models[m].params[j..][1..] == n.g.models[m].params[j + 1..];
    }
  }

  /** The bound of a model that may be used is `k + c*S` of what counts. */
  lemma ModelBoundIs(n: Net, c: Color, l: Limits, m: nat)
    requires NetOk(n) && LeastBounds(n, c, l) && m < |n.g.models|
    ensures l.m[m] == if n.skipM[m] then Inf
        else Costf(n.g.models[m].k, n.g.models[m].c,
            Add(Sum(n.g.models[m].checks, ForCheck(n, c)), Sum(n.g.models[m].params, ForParam(c, l))))
  {
    hide GraphOk, ForwardsOk, BackwardsOk, Attained, Penalty, BoundSum, Sum;
    PenaltyAdds(n, c, m, |n.g.models[m].checks|);
    ParamsAdd(n, c, l, m, 0);
    assert n.g.models[m].checks[..|n.g.models[m].checks|] == n.g.models[m].checks;
    assert n.g.models[m].params[0..] == n.g.models[m].params;
  }

  /** Return `j` of `m` is `x`; the pessimist does without returns that may have no instances. */
  predicate Supplies(n: Net, c: Color, m: nat, j: nat, x: nat) {
    && m < |n.g.models| && j < |n.g.models[m].rets| && n.g.models[m].rets[j].idx == x
    && (c == Gray || !n.g.models[m].rets[j].via.User?)
  }

  lemma DerivSupplies(n: Net, c: Color, x: nat, d: Deriv)
    requires NetOk(n) && x < |n.g.vars| && !n.given[x] && Derives(n, c, x, d)
    ensures d.By? && ModelDerives(n, c, d) && exists j: nat :: Supplies(n, c, d.m, j, x)
  {
    hide NetOk;
    var j :| 0 <= j < |n.g.models[d.m].rets| && n.g.models[d.m].rets[j].idx == x && Usable(c, n.g.models[d.m].rets[j]);
    assert Supplies(n, c, d.m, j, x);
  }

  /** The bound of a variable is the least of the models that supply it, and nothing for a given one. */
  lemma VarBoundIs(n: Net, c: Color, l: Limits, x: nat)
    requires NetOk(n) && LeastBounds(n, c, l) && x < |n.g.vars|
    ensures n.given[x] ==> l.v[x] == Fin(0.0)
    ensures forall m: nat, j: nat :: Supplies(n, c, m, j, x) ==> Le(l.v[x], l.m[m])
    ensures !n.given[x] && l.v[x].Fin? ==> exists m: nat, j: nat :: Supplies(n, c, m, j, x) && l.m[m] == l.v[x]
  {
    hide GraphOk, ForwardsOk, BackwardsOk, ModelBound, CostOf, ModelDerives;
    forall m: nat, j: nat | Supplies(n, c, m, j, x)
      ensures Le(l.v[x], l.m[m])
    {
      assert ReturnsVar(n, c, m, x);
    }
    if l.v[x].Fin? {
      var d :| Derives(n, c, x, d) && CostOf(n, c, d) == l.v[x].r;
      if !n.given[x] {
        DerivSupplies(n, c, x, d);
        ModelBoundBelow(n, c, l, d);
        var j: nat :| Supplies(n, c, d.m, j, x);
        assert Le(l.v[x], l.m[d.m]);
      }
    }
  }
}
