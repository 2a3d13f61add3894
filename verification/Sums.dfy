/** Sums of costs over lists do not depend on the order; the cost equations only use such sums. */
module Sums {
  import opened Costs
  import opened Graphs

  ghost function Sum<T(!new)>(s: seq<T>, f: T -> Cost): Cost {
    if s == [] then Fin(0.0) else Add(Sum(s[1..], f), f(s[0]))
  }

  lemma SumNone<T(!new)>(s: seq<T>, f: T -> Cost)
    requires |s| == 0
    ensures Sum(s, f) == Fin(0.0)
  {
  }

  lemma AddSwap(a: Cost, b: Cost, c: Cost)
    ensures Add(Add(a, b), c) == Add(Add(a, c), b)
  {
  }

  lemma {:induction false} SumRemove<T(!new)>(s: seq<T>, f: T -> Cost, i: nat)
    requires i < |s|
    ensures Sum(s, f) == Add(Sum(s[..i] + s[i + 1..], f), f(s[i]))
  {
    if i == 0 {
      assert s[..0] + s[1..] == s[1..];
    } else {
      var r := s[..i] + s[i + 1..];
      SumRemove(s[1..], f, i - 1);
      assert s[1..][..i - 1] + s[1..][i..] == r[1..];
      AddSwap(Sum(r[1..], f), f(s[i]), f(s[0]));
    }
  }

  lemma BagSplit<T>(s: seq<T>, i: nat)
    requires i < |s|
    ensures multiset(s[..i] + s[i + 1..]) == multiset(s) - multiset{s[i]}
  {
    assert s == s[..i] + [s[i]] + s[i + 1..];
    assert multiset(s) == multiset(s[..i] + s[i + 1..]) + multiset{s[i]};
  }

  /** Taking the same element out of two lists with the same elements. */
  lemma SameRest<T>(a: seq<T>, b: seq<T>, i: nat)
    requires multiset(a) == multiset(b) && a != [] && i < |b| && b[i] == a[0]
    ensures multiset(a[1..]) == multiset(b[..i] + b[i + 1..])
  {
    BagSplit(a, 0);
    BagSplit(b, i);
    assert a[..0] + a[1..] == a[1..];
  }

  lemma {:induction false} SumPermuted<T(!new)>(a: seq<T>, b: seq<T>, f: T -> Cost)
    requires multiset(a) == multiset(b)
    ensures Sum(a, f) == Sum(b, f)
  {
    if a == [] {
      assert |b| == |multiset(b)|;
    } else {
      assert a[0] in multiset(b);
      var i :| 0 <= i < |b| && b[i] == a[0];
      var c := b[..i] + b[i + 1..];
      SameRest(a, b, i);
      SumPermuted(a[1..], c, f);
      SumRemove(b, f, i);
    }
  }

  lemma {:induction false} SumEqual<T(!new)>(s: seq<T>, f: T -> Cost, g: T -> Cost)
    requires forall x :: x in s ==> f(x) == g(x)
    ensures Sum(s, f) == Sum(s, g)
  {
    if s != [] {
      assert s[0] in s;
      forall x | x in s[1..]
        ensures f(x) == g(x)
      {
        assert x in s;
      }
      SumEqual(s[1..], f, g);
    }
  }

  /** Largest cost among the first `i` instances behind an edge. */
  ghost function EdgeMax(p: Problem, t: Truth, e: Edge, inst: nat, i: nat): Cost
    requires i <= |Insts(p, e.via, inst)|
  {
    if i == 0 then Fin(0.0) else Max(EdgeMax(p, t, e, inst, i - 1), t.v(Ref(e.idx, Insts(p, e.via, inst)[i - 1])))
  }

  ghost function EdgeCost(p: Problem, t: Truth, inst: nat): Edge -> Cost {
    (e: Edge) => EdgeMax(p, t, e, inst, |Insts(p, e.via, inst)|)
  }

  ghost predicate FailsAt(p: Problem, t: Truth, c: Check, inst: nat, i: nat) {
    i < |Insts(p, c.via, inst)| && c.idx < |p.g.shadows| && !Passes(p, t, Ref(c.idx, Insts(p, c.via, inst)[i]))
  }

  ghost predicate Fails(p: Problem, t: Truth, c: Check, inst: nat) {
    exists i: nat :: FailsAt(p, t, c, inst, i)
  }

  ghost function CheckCost(p: Problem, t: Truth, inst: nat): Check -> Cost {
    (c: Check) => if Fails(p, t, c, inst) then Fin(c.penalty) else Fin(0.0)
  }

  lemma {:induction false} MaxCostIs(p: Problem, t: Truth, m: Ref, e: nat, i: nat)
    requires IsModel(p, m) && e < |ModelOf(p, m).params| && i <= |ParamInsts(p, m, e)|
    ensures MaxCost(p, t, m, e, i) == EdgeMax(p, t, ModelOf(p, m).params[e], m.inst, i)
  {
    if i > 0 {
      MaxCostIs(p, t, m, e, i - 1);
    }
  }

  lemma {:induction false} ParamSumIs(p: Problem, t: Truth, m: Ref, e: nat)
    requires IsModel(p, m) && e <= |ModelOf(p, m).params|
    ensures ParamSum(p, t, m, e) == Sum(ModelOf(p, m).params[e..], EdgeCost(p, t, m.inst))
    decreases |ModelOf(p, m).params| - e
  {
    if e < |ModelOf(p, m).params| {
      ParamSumIs(p, t, m, e + 1);
      MaxCostIs(p, t, m, e, |ParamInsts(p, m, e)|);
      assert ModelOf(p, m).params[e..][1..] == ModelOf(p, m).params[e + 1..];
    }
  }

  lemma CheckFailsIs(p: Problem, t: Truth, m: Ref, e: nat)
    requires GraphOk(p.g) && IsModel(p, m) && e < |ModelOf(p, m).checks|
    ensures CheckFails(p, t, m, e) <==> Fails(p, t, ModelOf(p, m).checks[e], m.inst)
  {
    assert ModelOk(p.g, ModelOf(p, m));
    var c := ModelOf(p, m).checks[e];
    forall i: nat
      ensures (IsCheck(p, m, e, i) && !Passes(p, t, CheckRef(p, m, e, i))) <==> FailsAt(p, t, c, m.inst, i)
    {
    }
    if CheckFails(p, t, m, e) {
      var i: nat :| IsCheck(p, m, e, i) && !Passes(p, t, CheckRef(p, m, e, i));
      assert FailsAt(p, t, c, m.inst, i);
    }
  }

  lemma {:induction false} PenaltiesIs(p: Problem, t: Truth, m: Ref, e: nat)
    requires GraphOk(p.g) && IsModel(p, m) && e <= |ModelOf(p, m).checks|
    ensures Fin(Penalties(p, t, m, e)) == Sum(ModelOf(p, m).checks[..e], CheckCost(p, t, m.inst))
  {
    hide GraphOk, CheckFails, Fails;
    if e > 0 {
      PenaltiesIs(p, t, m, e - 1);
      CheckFailsIs(p, t, m, e - 1);
      var s := ModelOf(p, m).checks[..e];
      SumRemove(s, CheckCost(p, t, m.inst), e - 1);
      assert s[..e - 1] + s[e..] == ModelOf(p, m).checks[..e - 1];
    }
  }

  /** The inverse cost of a model, as a sum over its checks and one over its parameters. */
  lemma ExactSIs(p: Problem, t: Truth, m: Ref)
    requires GraphOk(p.g) && IsModel(p, m)
    ensures ExactS(p, t, m) == Add(Sum(ModelOf(p, m).checks, CheckCost(p, t, m.inst)),
        Sum(ModelOf(p, m).params, EdgeCost(p, t, m.inst)))
  {
    hide GraphOk, Sum, Penalties, ParamSum;
    PenaltiesIs(p, t, m, |ModelOf(p, m).checks|);
    ParamSumIs(p, t, m, 0);
    assert ModelOf(p, m).checks[..|ModelOf(p, m).checks|] == ModelOf(p, m).checks;
    assert ModelOf(p, m).params[0..] == ModelOf(p, m).params;
  }

  lemma {:induction false} EdgeMaxSame(p: Problem, t: Truth, p': Problem, t': Truth, e: Edge, inst: nat, i: nat)
    requires p'.shape == p.shape && p'.umap == p.umap && i <= |Insts(p, e.via, inst)|
    requires forall j: nat :: t'.v(Ref(e.idx, j)) == t.v(Ref(e.idx, j))
    ensures i <= |Insts(p', e.via, inst)| && EdgeMax(p', t', e, inst, i) == EdgeMax(p, t, e, inst, i)
  {
    if i > 0 {
      EdgeMaxSame(p, t, p', t', e, inst, i - 1);
    }
  }

  lemma FailsSame(p: Problem, t: Truth, p': Problem, t': Truth, c: Check, inst: nat)
    requires p'.shape == p.shape && p'.umap == p.umap && p'.guard == p.guard && p'.g.shadows == p.g.shadows
    requires c.idx < |p.g.shadows|
    requires forall j: nat :: t'.v(Ref(p.g.shadows[c.idx], j)) == t.v(Ref(p.g.shadows[c.idx], j))
    ensures Fails(p', t', c, inst) <==> Fails(p, t, c, inst)
  {
    forall i: nat
      ensures FailsAt(p', t', c, inst, i) <==> FailsAt(p, t, c, inst, i)
    {
    }
  }

  /** Two models with the same parameters and checks, in any order, have the same inverse cost if the variables
      involved have the same costs. */
  lemma ExactSPermuted(p: Problem, t: Truth, p': Problem, t': Truth, m: Ref)
    requires GraphOk(p.g) && GraphOk(p'.g) && IsModel(p, m) && IsModel(p', m)
    requires p'.shape == p.shape && p'.umap == p.umap && p'.guard == p.guard && p'.g.shadows == p.g.shadows
    requires multiset(ModelOf(p', m).params) == multiset(ModelOf(p, m).params)
    requires multiset(ModelOf(p', m).checks) == multiset(ModelOf(p, m).checks)
    requires forall e, j: nat :: e in ModelOf(p, m).params ==> t'.v(Ref(e.idx, j)) == t.v(Ref(e.idx, j))
    requires forall c :: c in ModelOf(p, m).checks ==> c.idx < |p.g.shadows|
    requires forall c, j: nat :: c in ModelOf(p, m).checks ==>
      t'.v(Ref(p.g.shadows[c.idx], j)) == t.v(Ref(p.g.shadows[c.idx], j))
    ensures ExactS(p', t', m) == ExactS(p, t, m)
  {
    hide GraphOk, Sum, ExactS, Fails;
    ExactSIs(p, t, m);
    ExactSIs(p', t', m);
    var ps, cs := ModelOf(p, m).params, ModelOf(p, m).checks;
    SumPermuted(ModelOf(p', m).params, ps, EdgeCost(p', t', m.inst));
    SumPermuted(ModelOf(p', m).checks, cs, CheckCost(p', t', m.inst));
    forall e | e in ps
      ensures EdgeCost(p', t', m.inst)(e) == EdgeCost(p, t, m.inst)(e)
    {
      EdgeMaxSame(p, t, p', t', e, m.inst, |Insts(p, e.via, m.inst)|);
    }
    SumEqual(ps, EdgeCost(p', t', m.inst), EdgeCost(p, t, m.inst));
    forall c | c in cs
      ensures CheckCost(p', t', m.inst)(c) == CheckCost(p, t, m.inst)(c)
    {
      FailsSame(p, t, p', t', c, m.inst);
    }
    SumEqual(cs, CheckCost(p', t', m.inst), CheckCost(p, t, m.inst));
  }
}
