/** Exactly when pessimistic bounds survive selection; on graphs without user maps, unless free models form a cycle. */
module Attainment {
  import opened Costs
  import opened Graphs
  import opened Heaps
  import opened Bounds
  import opened Selection
  import opened Pruner
  import opened Optimum
  import opened PrunedGraph

  /** The net without the models that are not selected. */
  function SelectedNet(n: Net, f': Flags): Net {
    n.(skipM := seq(|n.skipM|, m requires 0 <= m < |n.skipM| => n.skipM[m] || !KeptModel(f', m)))
  }

  lemma SelectedNetOk(n: Net, f': Flags)
    requires NetOk(n)
    ensures NetOk(SelectedNet(n, f'))
  {
    hide GraphOk, ForwardsOk, BackwardsOk;
  }

  ghost predicate Selects(n: Net, k: Bounded, f: Flags, f': Flags) {
    BothLeast(n, k) && SelectedExactly(k, f, f')
  }

  /** A selected model returns `x` at its black bound, and what it takes at the same bound comes earlier. */
  ghost predicate TightModel(n: Net, k: Bounded, f': Flags, order: nat -> nat, x: nat, m: nat)
    requires BothLeast(n, k) && x < |n.g.vars|
  {
    && m < |n.g.models| && KeptModel(f', m) && !n.skipM[m] && ReturnsVar(n, Black, m, x)
    && k.black.m[m] == k.black.v[x]
    && (forall j :: 0 <= j < |n.g.models[m].params| && AsDark(k, n.g.models[m].params[j].idx, x) ==>
          order(n.g.models[m].params[j].idx) < order(x))
  }

  /** The two variables have the same black bound. */
  predicate AsDark(k: Bounded, y: nat, x: nat) {
    y < |k.black.v| && x < |k.black.v| && k.black.v[y] == k.black.v[x]
  }

  /** A selected variable that has to be derived at a finite black bound. */
  predicate ToDerive(n: Net, k: Bounded, f': Flags, x: nat) {
    x < |n.g.vars| && x < |n.given| && x < |k.black.v| && IsSel(f', V(x)) && !n.given[x] && k.black.v[x].Fin?
  }

  /** Every one of them has such a model: `order` leads out of every cycle of equal bounds. */
  ghost predicate Tight(n: Net, k: Bounded, f': Flags, order: nat -> nat)
    requires BothLeast(n, k)
  {
    forall x :: ToDerive(n, k, f', x) ==> exists m :: TightModel(n, k, f', order, x, m)
  }

  /** Variables with a smaller black bound. */
  ghost function Darker(k: Bounded, x: nat): set<nat>
    requires x < |k.black.v|
  {
    set y: nat | y < |k.black.v| && Lt(k.black.v[y], k.black.v[x])
  }

  lemma DarkerDrops(k: Bounded, x: nat, y: nat)
    requires x < |k.black.v| && y < |k.black.v| && Lt(k.black.v[y], k.black.v[x])
    ensures |Darker(k, y)| < |Darker(k, x)|
  {
    var a, b := Darker(k, y), Darker(k, x);
    assert a <= b && y in b && y !in a;
    assert b == a + (b - a) && y in b - a;
  }

  lemma {:induction false} BoundInSum(n: Net, v: seq<Cost>, m: nat, j: nat, i: nat)
    requires NetOk(n) && |v| == |n.g.vars| && m < |n.g.models| && j <= i < |n.g.models[m].params|
    requires forall x :: 0 <= x < |v| ==> Le(Fin(0.0), v[x])
    ensures n.g.models[m].params[i].idx < |v| && Le(v[n.g.models[m].params[i].idx], BoundSum(n, Black, v, m, j))
    decreases i - j
  {
    ParamInRange(n, m, i);
    ParamInRange(n, m, j);
    hide NetOk;
    SumIsNonNeg(n, v, m, j + 1);
    if j < i {
      BoundInSum(n, v, m, j + 1, i);
    }
  }

  lemma {:induction false} SumIsNonNeg(n: Net, v: seq<Cost>, m: nat, j: nat)
    requires NetOk(n) && |v| == |n.g.vars| && m < |n.g.models| && j <= |n.g.models[m].params|
    requires forall x :: 0 <= x < |v| ==> Le(Fin(0.0), v[x])
    ensures Le(Fin(0.0), BoundSum(n, Black, v, m, j))
    decreases |n.g.models[m].params| - j
  {
    if j < |n.g.models[m].params| {
      ParamInRange(n, m, j);
      hide NetOk;
      SumIsNonNeg(n, v, m, j + 1);
    }
  }

  lemma BlackNonNeg(n: Net, k: Bounded)
    requires BothLeast(n, k)
    ensures forall x :: 0 <= x < |k.black.v| ==> Le(Fin(0.0), k.black.v[x])
  {
    hide PreFixpoint, GraphOk, ForwardsOk, BackwardsOk;
    forall x | 0 <= x < |k.black.v|
      ensures Le(Fin(0.0), k.black.v[x])
    {
      if k.black.v[x].Fin? {
        var d :| Derives(n, Black, x, d) && CostOf(n, Black, d) == k.black.v[x].r;
      }
    }
  }

  /** The parameters of a model are bounded below it, and strictly if it costs something. */
  lemma ParamDarker(n: Net, k: Bounded, m: nat, i: nat)
    requires BothLeast(n, k) && m < |n.g.models| && !n.skipM[m] && i < |n.g.models[m].params| && k.black.m[m].Fin?
    ensures n.g.models[m].params[i].idx < |k.black.v| && Le(k.black.v[n.g.models[m].params[i].idx], k.black.m[m])
    ensures n.g.models[m].k > 0.0 ==> Lt(k.black.v[n.g.models[m].params[i].idx], k.black.m[m])
  {
    hide Attained, BoundSum, Penalty, GraphOk, ForwardsOk, BackwardsOk;
    BlackNonNeg(n, k);
    BoundInSum(n, k.black.v, m, 0, i);
    ModelFine(n, m);
    assert k.black.m[m] == ModelBound(n, Black, k.black.v, m);
    CostfAtLeast(n.g.models[m].k, n.g.models[m].c,
      Add(Fin(Penalty(n, Black, m, |n.g.models[m].checks|)), BoundSum(n, Black, k.black.v, m, 0)));
  }

  /** No user maps on returns. */
  predicate RetsSimple(n: Net) {
    forall m, i :: 0 <= m < |n.g.models| && 0 <= i < |n.g.models[m].rets| ==> !n.g.models[m].rets[i].via.User?
  }

  /** The model that `needbeta` is about: picked, with the same black bound. */
  lemma PickedAlike(n: Net, k: Bounded, f: Flags, f': Flags, x: nat) returns (m: nat)
    requires Selects(n, k, f, f') && RetsSimple(n) && IsSel(f', V(x))
    requires x < |n.g.vars| && !n.given[x] && k.black.v[x].Fin?
    ensures m < |n.g.models| && KeptModel(f', m) && k.black.m[m] == k.black.v[x] && ReturnsVar(n, Black, m, x)
    ensures !n.skipM[m]
  {
    hide GraphOk, ForwardsOk, Attained, SelectedExactly, Picked;
    var j := PickedAttains(n, k, x);
    PickedBy(k, x, j);
    m := ModelAt(k, x, j);
    assert PickedAt(k, x, j, m);
    SelSucc(k, f, f', V(x), M(m));
    assert HasEdge(n.g.models[m].rets, x);
    var i :| 0 <= i < |n.g.models[m].rets| && n.g.models[m].rets[i].idx == x;
    assert ReturnsVar(n, Black, m, x);
  }

  /** In the selected net, `d` derives `x` at its black bound. */
  ghost predicate AttainsIn(n: Net, k: Bounded, f': Flags, x: nat, d: Deriv)
    requires NetOk(n) && x < |k.black.v|
  {
    SelectedNetOk(n, f');
    Derives(SelectedNet(n, f'), Black, x, d) && Fin(CostOf(SelectedNet(n, f'), Black, d)) == k.black.v[x]
  }

  /** From parameter `j` on, the parameters of `m` have such derivations. */
  ghost predicate SubsAttain(n: Net, k: Bounded, f': Flags, m: nat, j: nat, subs: seq<Deriv>)
    requires NetOk(n)
  {
    && m < |n.g.models| && |subs| == |n.g.models[m].params| - j
    && (forall i: nat :: j <= i < |n.g.models[m].params| ==>
          n.g.models[m].params[i].idx < |k.black.v| && AttainsIn(n, k, f', n.g.models[m].params[i].idx, subs[i - j]))
  }

  /** Under such an order a finite black bound is attained by a derivation inside the selection. */
  lemma {:induction false} TightSurvives(n: Net, k: Bounded, f: Flags, f': Flags, order: nat -> nat, x: nat)
      returns (d: Deriv)
    requires Selects(n, k, f, f') && Tight(n, k, f', order) && IsSel(f', V(x)) && x < |n.g.vars| && k.black.v[x].Fin?
    ensures AttainsIn(n, k, f', x, d)
    decreases |Darker(k, x)|, order(x), 1
  {
    hide GraphOk, ForwardsOk, BackwardsOk, Attained, SelectedExactly, BoundedOk, ReturnsVar;
    SelectedNetOk(n, f');
    if n.given[x] {
      d := Free;
      GivenBlack(n, k, x);
    } else {
      assert ToDerive(n, k, f', x);
      var m: nat :| TightModel(n, k, f', order, x, m);
      var subs := SubsSurvive(n, k, f, f', order, x, m, 0);
      d := By(m, subs);
      SubsMakeDeriv(n, k, f', x, m, subs);
    }
  }

  lemma BothSizes(n: Net, k: Bounded)
    requires BothLeast(n, k)
    ensures |k.black.v| == |n.g.vars| == |n.given| && |n.skipM| == |n.g.models| == |k.black.m|
  {
  }

  lemma GivenBlack(n: Net, k: Bounded, x: nat)
    requires BothLeast(n, k) && x < |n.g.vars| && n.given[x]
    ensures k.black.v[x] == Fin(0.0)
  {
    BlackNonNeg(n, k);
  }

  /** A parameter of a tight model comes earlier. */
  lemma ParamDrops(n: Net, k: Bounded, f': Flags, order: nat -> nat, x: nat, m: nat, j: nat)
    requires BothLeast(n, k) && x < |n.g.vars| && k.black.v[x].Fin?
    requires TightModel(n, k, f', order, x, m) && j < |n.g.models[m].params|
    ensures var y := n.g.models[m].params[j].idx;
      && y < |k.black.v| && k.black.v[y].Fin?
      && (|Darker(k, y)| < |Darker(k, x)| || (Darker(k, y) == Darker(k, x) && order(y) < order(x)))
  {
    hide GraphOk, ForwardsOk, BackwardsOk, Attained, BoundedOk, PreFixpoint;
    var y := n.g.models[m].params[j].idx;
    ParamDarker(n, k, m, j);
    if Lt(k.black.v[y], k.black.v[x]) {
      DarkerDrops(k, x, y);
    }
  }

  lemma {:induction false} SubsSurvive(n: Net, k: Bounded, f: Flags, f': Flags, order: nat -> nat, x: nat, m: nat,
      j: nat) returns (subs: seq<Deriv>)
    requires Selects(n, k, f, f') && Tight(n, k, f', order) && x < |n.g.vars| && k.black.v[x].Fin?
    requires TightModel(n, k, f', order, x, m) && j <= |n.g.models[m].params|
    ensures SubsAttain(n, k, f', m, j, subs)
    decreases |Darker(k, x)|, order(x), 0, |n.g.models[m].params| - j
  {
    hide GraphOk, ForwardsOk, BackwardsOk, Attained, SelectedExactly, BoundedOk, PreFixpoint, Darker, AttainsIn, Tight;
    subs := [];
    if j < |n.g.models[m].params| {
      var y := n.g.models[m].params[j].idx;
      ParamDrops(n, k, f', order, x, m, j);
      TakenSelected(n, k, f, f', m, j);
      var d := TightSurvives(n, k, f, f', order, y);
      var rest := SubsSurvive(n, k, f, f', order, x, m, j + 1);
      subs := [d] + rest;
      forall i: nat | j <= i < |n.g.models[m].params|
        ensures n.g.models[m].params[i].idx < |k.black.v|
        ensures AttainsIn(n, k, f', n.g.models[m].params[i].idx, subs[i - j])
      {
        if i > j {
          assert subs[i - j] == rest[i - (j + 1)];
        }
      }
    }
  }

  lemma TakenSelected(n: Net, k: Bounded, f: Flags, f': Flags, m: nat, j: nat)
    requires Selects(n, k, f, f') && m < |n.g.models| && KeptModel(f', m) && j < |n.g.models[m].params|
    ensures IsSel(f', V(n.g.models[m].params[j].idx))
  {
    hide NetOk, BoundedOk, LeastBounds, SelectedExactly;
    assert TakesAt(k, m, j, n.g.models[m].params[j].idx);
    SelSucc(k, f, f', M(m), V(n.g.models[m].params[j].idx));
  }

  lemma SubsMakeDeriv(n: Net, k: Bounded, f': Flags, x: nat, m: nat, subs: seq<Deriv>)
    requires BothLeast(n, k) && x < |n.g.vars| && m < |n.g.models| && KeptModel(f', m) && !n.skipM[m]
    requires ReturnsVar(n, Black, m, x)
    requires k.black.m[m] == k.black.v[x] && k.black.v[x].Fin? && SubsAttain(n, k, f', m, 0, subs)
    ensures AttainsIn(n, k, f', x, By(m, subs))
  {
    hide GraphOk, ForwardsOk, BackwardsOk, Attained, CostOf, SubCosts, BoundSum, Penalty;
    SelectedNetOk(n, f');
    var h, d := SelectedNet(n, f'), By(m, subs);
    forall j | 0 <= j < |subs|
      ensures Derives(h, Black, n.g.models[m].params[j].idx, subs[j])
    {
      assert AttainsIn(n, k, f', n.g.models[m].params[j].idx, subs[j - 0]);
    }
    assert ModelDerives(h, Black, d);
    assert ReturnsVar(h, Black, m, x);
    SubsSum(n, k, f', d, 0);
    SamePenalty(n, f', m, |n.g.models[m].checks|);
    CostUnfolds(h, Black, d);
    assert k.black.m[m] == ModelBound(n, Black, k.black.v, m);
  }

  lemma {:induction false} SamePenalty(n: Net, f': Flags, m: nat, e: nat)
    requires NetOk(n) && NetOk(SelectedNet(n, f')) && m < |n.g.models| && e <= |n.g.models[m].checks|
    ensures Penalty(SelectedNet(n, f'), Black, m, e) == Penalty(n, Black, m, e)
  {
    hide NetOk;
    if e > 0 {
      SamePenalty(n, f', m, e - 1);
    }
  }

  lemma {:induction false} SubsSum(n: Net, k: Bounded, f': Flags, d: Deriv, j: nat)
    requires BothLeast(n, k) && NetOk(SelectedNet(n, f')) && d.By? && ModelDerives(SelectedNet(n, f'), Black, d)
    requires j <= |d.subs|
    requires SubsAttain(n, k, f', d.m, 0, d.subs)
    ensures Fin(SubCosts(SelectedNet(n, f'), Black, d, j)) == BoundSum(n, Black, k.black.v, d.m, j)
    decreases |d.subs| - j
  {
    hide NetOk, LeastBounds, CostOf, ModelDerives;
    if j < |d.subs| {
      SubsSum(n, k, f', d, j + 1);
      assert AttainsIn(n, k, f', n.g.models[d.m].params[j].idx, d.subs[j - 0]);
      assert Needed(Black, n.g.models[d.m].params[j]);
    }
  }

  // ---------- the other way around ----------

  /** Models used in a derivation. */
  function Size(d: Deriv): (s: nat)
    decreases d, 0
  {
    match d
    case Free => 0
    case By(m, subs) => 1 + Sizes(subs)
  }

  function Sizes(ds: seq<Deriv>): nat
    decreases ds, 0
  {
    if ds == [] then 0 else Size(ds[0]) + Sizes(ds[1..])
  }

  lemma {:induction false} SizeIn(ds: seq<Deriv>, j: nat)
    requires j < |ds|
    ensures Size(ds[j]) <= Sizes(ds)
  {
    if j > 0 {
      SizeIn(ds[1..], j - 1);
    }
  }

  ghost predicate AttainsAt(n: Net, k: Bounded, f': Flags, x: nat, s: nat)
    requires NetOk(n) && x < |k.black.v|
  {
    exists d :: AttainsIn(n, k, f', x, d) && Size(d) == s
  }

  /** The least size, from `s` on, of a derivation of `x` that attains its bound, if there is one of size `e`. */
  ghost function LeastFrom(n: Net, k: Bounded, f': Flags, x: nat, s: nat, e: nat): (r: nat)
    requires NetOk(n) && x < |k.black.v| && s <= e && AttainsAt(n, k, f', x, e)
    ensures s <= r <= e && AttainsAt(n, k, f', x, r)
    decreases e - s
  {
    if s == e || AttainsAt(n, k, f', x, s) then s else LeastFrom(n, k, f', x, s + 1, e)
  }

  lemma {:induction false} LeastIs(n: Net, k: Bounded, f': Flags, x: nat, s: nat, e: nat, l: nat)
    requires NetOk(n) && x < |k.black.v| && s <= e && AttainsAt(n, k, f', x, e)
    requires s <= l && AttainsAt(n, k, f', x, l)
    ensures LeastFrom(n, k, f', x, s, e) <= l
    decreases e - s
  {
    hide AttainsAt;
    if s != e && !AttainsAt(n, k, f', x, s) {
      LeastIs(n, k, f', x, s + 1, e, l);
    }
  }

  /** Orders variables by the size of their smallest derivations that attain the bound. */
  ghost function SizeOrder(n: Net, k: Bounded, f': Flags): nat -> nat
    requires NetOk(n)
  {
    (x: nat) =>
      if x < |k.black.v| && exists s :: AttainsAt(n, k, f', x, s) then
        var e: nat :| AttainsAt(n, k, f', x, e); LeastFrom(n, k, f', x, 0, e)
      else 0
  }

  lemma SizeOrderIs(n: Net, k: Bounded, f': Flags, x: nat, d: Deriv)
    requires NetOk(n) && x < |k.black.v| && AttainsIn(n, k, f', x, d)
    ensures SizeOrder(n, k, f')(x) <= Size(d) && AttainsAt(n, k, f', x, SizeOrder(n, k, f')(x))
  {
    hide AttainsIn, NetOk;
    assert AttainsAt(n, k, f', x, Size(d));
    var e: nat :| AttainsAt(n, k, f', x, e) && SizeOrder(n, k, f')(x) == LeastFrom(n, k, f', x, 0, e);
    LeastIs(n, k, f', x, 0, e, Size(d));
  }

  /** What can be derived in the selection can be derived without it, at the same cost. */
  lemma {:induction false} DerivesOut(n: Net, f': Flags, x: nat, d: Deriv)
    requires NetOk(n) && NetOk(SelectedNet(n, f')) && Derives(SelectedNet(n, f'), Black, x, d)
    ensures Derives(n, Black, x, d) && CostOf(n, Black, d) == CostOf(SelectedNet(n, f'), Black, d)
    decreases d, 1
  {
    hide NetOk, CostOf, ModelDerives;
    if d.By? {
      ModelOut(n, f', d);
      assert ReturnsVar(n, Black, d.m, x);
    } else {
      FreeCost(n, Black);
      FreeCost(SelectedNet(n, f'), Black);
    }
  }

  lemma NetSizes(n: Net)
    requires NetOk(n)
    ensures |n.given| == |n.g.vars| && |n.skipM| == |n.g.models|
  {
  }

  lemma FreeCost(n: Net, c: Color)
    requires NetOk(n)
    ensures CostOf(n, c, Free) == 0.0
  {
  }

  lemma {:induction false} ModelOut(n: Net, f': Flags, d: Deriv)
    requires NetOk(n) && NetOk(SelectedNet(n, f')) && d.By? && ModelDerives(SelectedNet(n, f'), Black, d)
    ensures ModelDerives(n, Black, d) && CostOf(n, Black, d) == CostOf(SelectedNet(n, f'), Black, d)
    ensures d.m < |n.g.models| && !n.skipM[d.m] && KeptModel(f', d.m)
    decreases d, 0, |d.subs| + 1
  {
    hide NetOk, CostOf, SubCosts, Penalty;
    NetSizes(n);
    forall j | 0 <= j < |d.subs|
      ensures Derives(n, Black, n.g.models[d.m].params[j].idx, d.subs[j])
    {
      assert Needed(Black, n.g.models[d.m].params[j]);
      DerivesOut(n, f', n.g.models[d.m].params[j].idx, d.subs[j]);
    }
    CostUnfolds(n, Black, d);
    CostUnfolds(SelectedNet(n, f'), Black, d);
    SubsOut(n, f', d, 0);
    SamePenalty(n, f', d.m, |n.g.models[d.m].checks|);
  }

  lemma {:induction false} SubsOut(n: Net, f': Flags, d: Deriv, j: nat)
    requires NetOk(n) && NetOk(SelectedNet(n, f')) && d.By? && ModelDerives(SelectedNet(n, f'), Black, d)
    requires ModelDerives(n, Black, d) && j <= |d.subs|
    ensures SubCosts(n, Black, d, j) == SubCosts(SelectedNet(n, f'), Black, d, j)
    decreases d, 0, |d.subs| - j
  {
    hide NetOk, CostOf;
    if j < |d.subs| {
      SubsOut(n, f', d, j + 1);
      DerivesOut(n, f', n.g.models[d.m].params[j].idx, d.subs[j]);
    }
  }

  /** A derivation costs at least as much as each of its parts. */
  lemma PartBelow(n: Net, d: Deriv, j: nat)
    requires NetOk(n) && d.By? && ModelDerives(n, Black, d) && j < |d.subs|
    ensures Derives(n, Black, n.g.models[d.m].params[j].idx, d.subs[j])
    ensures CostOf(n, Black, d.subs[j]) <= CostOf(n, Black, d)
  {
    hide NetOk, CostOf, SubCosts, Penalty;
    assert Needed(Black, n.g.models[d.m].params[j]);
    PartInSum(n, d, 0, j);
    CostUnfolds(n, Black, d);
    ModelFine(n, d.m);
    CostfAtLeast(n.g.models[d.m].k, n.g.models[d.m].c, Fin(DerivS(n, Black, d)));
  }

  lemma {:induction false} PartInSum(n: Net, d: Deriv, i: nat, j: nat)
    requires NetOk(n) && d.By? && ModelDerives(n, Black, d) && i <= j < |d.subs|
    requires Derives(n, Black, n.g.models[d.m].params[j].idx, d.subs[j])
    ensures CostOf(n, Black, d.subs[j]) <= SubCosts(n, Black, d, i)
    decreases j - i
  {
    hide NetOk, CostOf;
    assert Needed(Black, n.g.models[d.m].params[i]);
    if i < j {
      PartInSum(n, d, i + 1, j);
    }
  }

  /** The last model of a smallest derivation is tight. */
  lemma SmallestIsTight(n: Net, k: Bounded, f': Flags, x: nat, d: Deriv)
    requires BothLeast(n, k) && ToDerive(n, k, f', x)
    requires AttainsIn(n, k, f', x, d) && Size(d) == SizeOrder(n, k, f')(x)
    ensures d.By? && TightModel(n, k, f', SizeOrder(n, k, f'), x, d.m)
  {
    hide NetOk, CostOf, ModelDerives, BoundedOk, LeastBounds, SizeOrder, AttainsIn;
    BothSizes(n, k);
    LastModel(n, k, f', x, d);
    var m := d.m;
    forall j | 0 <= j < |n.g.models[m].params| && AsDark(k, n.g.models[m].params[j].idx, x)
      ensures SizeOrder(n, k, f')(n.g.models[m].params[j].idx) < SizeOrder(n, k, f')(x)
    {
      PartAttains(n, k, f', x, d, j);
      SizeOrderIs(n, k, f', n.g.models[m].params[j].idx, d.subs[j]);
      SizeIn(d.subs, j);
    }
  }

  lemma LastModel(n: Net, k: Bounded, f': Flags, x: nat, d: Deriv)
    requires BothLeast(n, k) && ToDerive(n, k, f', x) && AttainsIn(n, k, f', x, d)
    ensures NetOk(SelectedNet(n, f')) && d.By? && ModelDerives(SelectedNet(n, f'), Black, d)
    ensures d.m < |n.g.models| && KeptModel(f', d.m) && !n.skipM[d.m] && ReturnsVar(n, Black, d.m, x)
    ensures k.black.m[d.m] == k.black.v[x] && |d.subs| == |n.g.models[d.m].params|
  {
    hide NetOk, CostOf, BoundedOk, Attained, ReturnsVar, ModelDerives;
    BothSizes(n, k);
    SelectedNetOk(n, f');
    LastDerives(n, k, f', x, d);
    ModelOut(n, f', d);
    ModelBoundBelow(n, Black, k.black, d);
  }

  lemma LastDerives(n: Net, k: Bounded, f': Flags, x: nat, d: Deriv)
    requires BothLeast(n, k) && ToDerive(n, k, f', x) && AttainsIn(n, k, f', x, d) && NetOk(SelectedNet(n, f'))
    ensures d.By? && ModelDerives(SelectedNet(n, f'), Black, d) && ReturnsVar(n, Black, d.m, x)
    ensures Fin(CostOf(SelectedNet(n, f'), Black, d)) == k.black.v[x]
    ensures |d.subs| == |n.g.models[d.m].params|
  {
    hide NetOk, CostOf, BoundedOk, LeastBounds;
    BothSizes(n, k);
    if d.By? {
      assert ModelDerives(SelectedNet(n, f'), Black, d);
      assert ReturnsVar(SelectedNet(n, f'), Black, d.m, x);
    }
  }

  lemma PartAttains(n: Net, k: Bounded, f': Flags, x: nat, d: Deriv, j: nat)
    requires BothLeast(n, k) && NetOk(SelectedNet(n, f')) && x < |n.g.vars|
    requires AttainsIn(n, k, f', x, d) && d.By? && ModelDerives(SelectedNet(n, f'), Black, d)
    requires j < |d.subs| && AsDark(k, n.g.models[d.m].params[j].idx, x)
    ensures AttainsIn(n, k, f', n.g.models[d.m].params[j].idx, d.subs[j])
  {
    hide NetOk, CostOf, BoundedOk, Attained;
    BothSizes(n, k);
    var y := n.g.models[d.m].params[j].idx;
    PartBelow(SelectedNet(n, f'), d, j);
    DerivesOut(n, f', y, d.subs[j]);
    BoundBelow(n, Black, k.black, y, d.subs[j]);
  }

  ghost predicate Survives(n: Net, k: Bounded, f': Flags, x: nat)
    requires NetOk(n) && x < |k.black.v|
  {
    exists d :: AttainsIn(n, k, f', x, d)
  }

  /** All finite black bounds are attained inside the selection, exactly if there is an order under which every
      selected variable that has to be derived has a selected model that returns it at its bound and takes nothing
      at the same bound but what comes earlier. */
  lemma SurvivesExactly(n: Net, k: Bounded, f: Flags, f': Flags)
    requires Selects(n, k, f, f')
    ensures (exists order :: Tight(n, k, f', order)) <==>
      (forall x: nat :: x < |n.g.vars| && IsSel(f', V(x)) && k.black.v[x].Fin? ==> Survives(n, k, f', x))
  {
    hide NetOk, BoundedOk, LeastBounds, SelectedExactly, Tight, AttainsIn, SizeOrder;
    BothSizes(n, k);
    if order :| Tight(n, k, f', order) {
      forall x: nat | x < |n.g.vars| && IsSel(f', V(x)) && k.black.v[x].Fin?
        ensures Survives(n, k, f', x)
      {
        var d := TightSurvives(n, k, f, f', order, x);
      }
    }
    if forall x: nat :: x < |n.g.vars| && IsSel(f', V(x)) && k.black.v[x].Fin? ==> Survives(n, k, f', x) {
      AllTight(n, k, f, f');
    }
  }

  lemma AllTight(n: Net, k: Bounded, f: Flags, f': Flags)
    requires Selects(n, k, f, f')
    requires forall x: nat :: x < |n.g.vars| && IsSel(f', V(x)) && k.black.v[x].Fin? ==> Survives(n, k, f', x)
    ensures Tight(n, k, f', SizeOrder(n, k, f'))
  {
    hide NetOk, BoundedOk, LeastBounds, SelectedExactly, AttainsIn, SizeOrder, TightModel;
    BothSizes(n, k);
    forall x | ToDerive(n, k, f', x)
      ensures exists m :: TightModel(n, k, f', SizeOrder(n, k, f'), x, m)
    {
      assert Survives(n, k, f', x);
      var e :| AttainsIn(n, k, f', x, e);
      SizeOrderIs(n, k, f', x, e);
      var d :| AttainsIn(n, k, f', x, d) && Size(d) == SizeOrder(n, k, f')(x);
      SmallestIsTight(n, k, f', x, d);
    }
  }

  // ---------- a condition on the graph alone ----------

  /** No user maps on returns, and no cycle of free models. */
  ghost predicate Plain(n: Net, order: nat -> nat)
    requires NetOk(n)
  {
    FreeOrdered(n, order) && RetsSimple(n)
  }

  /** Without a cycle of free models the order of these will do. */
  lemma PlainTight(n: Net, k: Bounded, f: Flags, f': Flags, order: nat -> nat)
    requires Selects(n, k, f, f') && Plain(n, order)
    ensures Tight(n, k, f', order)
  {
    hide NetOk, BoundedOk, LeastBounds, SelectedExactly, FreeOrdered, ReturnsVar;
    forall x | ToDerive(n, k, f', x)
      ensures exists m :: TightModel(n, k, f', order, x, m)
    {
      var m := PickedAlike(n, k, f, f', x);
      FreeParams(n, k, order, x, m);
      assert TightModel(n, k, f', order, x, m);
    }
  }

  lemma FreeParams(n: Net, k: Bounded, order: nat -> nat, x: nat, m: nat)
    requires BothLeast(n, k) && Plain(n, order) && x < |n.g.vars| && k.black.v[x].Fin?
    requires m < |n.g.models| && !n.skipM[m] && ReturnsVar(n, Black, m, x) && k.black.m[m] == k.black.v[x]
    ensures forall j :: 0 <= j < |n.g.models[m].params| && AsDark(k, n.g.models[m].params[j].idx, x) ==>
        order(n.g.models[m].params[j].idx) < order(x)
  {
    hide GraphOk, ForwardsOk, BackwardsOk, LeastBounds, BoundedOk;
    forall j | 0 <= j < |n.g.models[m].params| && AsDark(k, n.g.models[m].params[j].idx, x)
      ensures order(n.g.models[m].params[j].idx) < order(x)
    {
      ParamDarker(n, k, m, j);
      var i :| 0 <= i < |n.g.models[m].rets| && n.g.models[m].rets[i].idx == x;
      assert order(n.g.models[m].params[j].idx) < order(n.g.models[m].rets[i].idx);
    }
  }

  /** So without user maps on returns a finite black bound survives unless free models form a cycle. */
  lemma BlackSurvives(n: Net, k: Bounded, f: Flags, f': Flags, order: nat -> nat, x: nat) returns (d: Deriv)
    requires Selects(n, k, f, f') && Plain(n, order) && IsSel(f', V(x)) && x < |n.g.vars| && k.black.v[x].Fin?
    ensures AttainsIn(n, k, f', x, d)
  {
    hide NetOk, LeastBounds, SelectedExactly, FreeOrdered, Tight;
    PlainTight(n, k, f, f', order);
    d := TightSurvives(n, k, f, f', order, x);
  }
}
