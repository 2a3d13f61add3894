/** True costs in terms of the definitions alone: no graph, no edges, no lists of instances. Problems on built graphs
    agree with them. */
module DefSpecs {
  import opened Costs
  import opened Graphs
  import opened Bounds
  import opened Selection
  import opened Pruner
  import opened Optimum
  import opened Build
  import opened FromDefs
  import opened Sums
  import Values

  // ---------- true costs of definitions ----------

  /** Model instance `a` and variable instance `b` belong together: the same instance under an identity map, and any
      two under a space map. */
  predicate Joined(via: ExtMap, a: nat, b: nat) {
    via.XIdent? ==> a == b
  }

  predicate IsDefVar(d: Def, shape: seq<nat>, x: Ref) {
    x.idx < |d.groups| && d.groups[x.idx] < |shape| && x.inst < shape[d.groups[x.idx]]
  }

  predicate IsDefModel(d: Def, shape: seq<nat>, m: Ref) {
    m.idx < |d.models| && d.models[m.idx].group < |shape| && m.inst < shape[d.models[m.idx].group]
  }

  /** Return `l` of model instance `m` can supply `x`. */
  predicate DefCand(d: Def, shape: seq<nat>, x: Ref, m: Ref, l: nat) {
    && IsDefVar(d, shape, x) && IsDefModel(d, shape, m) && l < |d.models[m.idx].rets|
    && d.models[m.idx].rets[l].idx == x.idx && Joined(d.models[m.idx].rets[l].via, m.inst, x.inst)
  }

  /** Parameter `j` of model instance `m` takes variable instance `y`. */
  predicate DefTakes(d: Def, shape: seq<nat>, m: Ref, j: nat, y: Ref) {
    && IsDefModel(d, shape, m) && IsDefVar(d, shape, y) && j < |d.models[m.idx].params|
    && d.models[m.idx].params[j].idx == y.idx && Joined(d.models[m.idx].params[j].via, m.inst, y.inst)
  }

  /** The model may be used: it is not skipped, nor is anything that it takes or returns, and it returns nothing
      given. */
  predicate DefAvailable(d: Def, f: Flags, m: nat) {
    && m < |d.models| && m < |f.m| && !f.m[m].skip
    && (forall l :: 0 <= l < |d.models[m].rets| && d.models[m].rets[l].idx < |f.v| ==>
        !f.v[d.models[m].rets[l].idx].given && !f.v[d.models[m].rets[l].idx].skip)
    && (forall j :: 0 <= j < |d.models[m].params| && d.models[m].params[j].idx < |f.v| ==>
        !f.v[d.models[m].params[j].idx].skip)
  }

  /** Check `j` of model instance `m` fails at instance `i` of its shadow: the variable cannot be had, or the guard does
      not hold. */
  ghost predicate DefFailsAt(d: Def, shape: seq<nat>, guard: Ref -> bool, t: Truth, m: Ref, j: nat, i: nat)
    requires DefOk(d) && IsDefModel(d, shape, m) && j < |d.models[m.idx].checks|
  {
    var c := d.models[m.idx].checks[j];
    && IsDefVar(d, shape, Ref(d.shadows[c.idx], i)) && Joined(c.via, m.inst, i)
    && !(Le(t.v(Ref(d.shadows[c.idx], i)), Fin(MAX_COST)) && guard(Ref(c.idx, i)))
  }

  ghost predicate DefFails(d: Def, shape: seq<nat>, guard: Ref -> bool, t: Truth, m: Ref, j: nat)
    requires DefOk(d) && IsDefModel(d, shape, m) && j < |d.models[m.idx].checks|
  {
    exists i: nat :: DefFailsAt(d, shape, guard, t, m, j, i)
  }

  /** What the first `n` checks cost: each its penalty, if it fails anywhere. */
  ghost function DefPenalties(d: Def, shape: seq<nat>, guard: Ref -> bool, t: Truth, m: Ref, n: nat): real
    requires DefOk(d) && IsDefModel(d, shape, m) && n <= |d.models[m.idx].checks|
  {
    if n == 0 then 0.0
    else
      DefPenalties(d, shape, guard, t, m, n - 1)
      + (if DefFails(d, shape, guard, t, m, n - 1) then d.models[m.idx].checks[n - 1].penalty else 0.0)
  }

  /** The largest cost among the first `n` instances of variable `i`. */
  ghost function Dearest(t: Truth, i: nat, n: nat): Cost {
    if n == 0 then Fin(0.0) else Max(Dearest(t, i, n - 1), t.v(Ref(i, n - 1)))
  }

  /** What parameter `j` of `m` costs: the instance at hand, or the dearest of all. */
  ghost function DefCost(d: Def, shape: seq<nat>, t: Truth, m: Ref, j: nat): Cost
    requires DefOk(d) && Plain(d, shape) && IsDefModel(d, shape, m) && j < |d.models[m.idx].params|
  {
    var a := d.models[m.idx].params[j];
    if a.via.XIdent? then Max(Fin(0.0), t.v(Ref(a.idx, m.inst))) else Dearest(t, a.idx, shape[d.groups[a.idx]])
  }

  ghost function DefCosts(d: Def, shape: seq<nat>, t: Truth, m: Ref, n: nat): Cost
    requires DefOk(d) && Plain(d, shape) && IsDefModel(d, shape, m) && n <= |d.models[m.idx].params|
  {
    if n == 0 then Fin(0.0) else Add(DefCosts(d, shape, t, m, n - 1), DefCost(d, shape, t, m, n - 1))
  }

  /** `k + c*S` of a model instance. */
  ghost function DefModelCost(d: Def, shape: seq<nat>, guard: Ref -> bool, t: Truth, m: Ref): Cost
    requires DefOk(d) && Plain(d, shape) && IsDefModel(d, shape, m)
  {
    var a := d.models[m.idx];
    var s := Add(Fin(DefPenalties(d, shape, guard, t, m, |a.checks|)), DefCosts(d, shape, t, m, |a.params|));
    if s.Inf? then Inf else Fin(a.k + a.c * s.r)
  }

  /** The cost equations of the definitions under the caller's flags. */
  ghost predicate DefTruth(d: Def, shape: seq<nat>, guard: Ref -> bool, f: Flags, t: Truth)
    requires DefOk(d) && Plain(d, shape)
  {
    && (forall x: Ref :: IsDefVar(d, shape, x) ==>
          if x.idx < |f.v| && f.v[x.idx].given then t.v(x) == Fin(0.0) else DefCheapest(d, shape, t, x))
    && (forall m: Ref :: IsDefModel(d, shape, m) ==>
          t.m(m) == if DefAvailable(d, f, m.idx) then DefModelCost(d, shape, guard, t, m) else Inf)
  }

  ghost predicate DefCheapest(d: Def, shape: seq<nat>, t: Truth, x: Ref) {
    && (forall m: Ref, l: nat :: DefCand(d, shape, x, m, l) ==> Le(t.v(x), t.m(m)))
    && (t.v(x).Inf? || exists m: Ref, l: nat :: DefCand(d, shape, x, m, l) && t.m(m) == t.v(x))
  }

  /** Finite costs come from somewhere. */
  ghost predicate DefGrounded(d: Def, shape: seq<nat>, f: Flags, t: Truth, rank: Ref -> nat) {
    forall x: Ref :: IsDefVar(d, shape, x) && x.idx < |f.v| && !f.v[x.idx].given && t.v(x).Fin? ==>
        DefGrounds(d, shape, t, rank, x)
  }

  ghost predicate DefGrounds(d: Def, shape: seq<nat>, t: Truth, rank: Ref -> nat, x: Ref) {
    exists m: Ref, l: nat :: DefGroundedBy(d, shape, t, rank, x, m, l)
  }

  ghost predicate DefGroundedBy(d: Def, shape: seq<nat>, t: Truth, rank: Ref -> nat, x: Ref, m: Ref, l: nat) {
    && DefCand(d, shape, x, m, l) && t.m(m) == t.v(x)
    && (forall j: nat, y: Ref :: DefTakes(d, shape, m, j, y) ==> rank(y) < rank(x))
  }

  // ---------- graphs agree: variables and candidates ----------

  lemma SameRefs(d: Def, p: Problem)
    requires BuiltFrom(d, p)
    ensures forall x: Ref :: IsVar(p, x) <==> IsDefVar(d, p.shape, x)
    ensures forall m: Ref :: IsModel(p, m) <==> IsDefModel(d, p.shape, m)
    ensures |p.g.vars| == |d.groups| && |p.g.models| == |d.models| && p.g.shadows == d.shadows
  {
    hide DefOk, Plain, Backwards, Forwards, ParamEdges, CheckEdges, RetEdges;
    forall m: Ref
      ensures IsModel(p, m) <==> IsDefModel(d, p.shape, m)
    {
      if m.idx < |d.models| {
        assert BuiltModel(d, p.g, m.idx);
      }
    }
  }

  /** The instances that a plain map leads to. */
  lemma ForthAre(p: Problem, via: ExtMap, from: nat, group: nat, a: nat)
    requires PlainMap(via, from, group) && group < |p.shape| && a < Shape(p, from)
    ensures via.XIdent? ==> Insts(p, Forth(via, group), a) == [a]
    ensures via.XSpace? ==> |Insts(p, Forth(via, group), a)| == p.shape[group]
    ensures via.XSpace? ==> forall i :: 0 <= i < p.shape[group] ==> Insts(p, Forth(via, group), a)[i] == i
    ensures forall i: nat :: i in Insts(p, Forth(via, group), a) <==> i < p.shape[group] && Joined(via, a, i)
  {
    var s := Insts(p, Forth(via, group), a);
    if via.XSpace? {
      forall i: nat
        ensures i in s <==> i < p.shape[group]
      {
        if i < p.shape[group] {
          assert s[i] == i;
        }
      }
    }
  }

  lemma BackAre(p: Problem, via: ExtMap, from: nat, group: nat, b: nat)
    requires PlainMap(via, from, group) && from < |p.shape| && b < Shape(p, group)
    ensures forall i: nat :: i in Insts(p, Back(via, from), b) <==> i < p.shape[from] && Joined(via, i, b)
  {
    var s := Insts(p, Back(via, from), b);
    if via.XSpace? {
      forall i: nat
        ensures i in s <==> i < p.shape[from]
      {
        if i < p.shape[from] {
          assert s[i] == i;
        }
      }
    }
  }

  lemma RetPlain(d: Def, p: Problem, m: nat, l: nat)
    requires BuiltFrom(d, p) && m < |d.models| && l < |d.models[m].rets|
    ensures d.models[m].rets[l].idx < |d.groups|
    ensures PlainMap(d.models[m].rets[l].via, d.models[m].group, d.groups[d.models[m].rets[l].idx])
    ensures d.models[m].group < |p.shape|
  {
    hide Built;
    assert PlainModel(d, m);
  }

  lemma ParamPlain(d: Def, p: Problem, m: nat, j: nat)
    requires BuiltFrom(d, p) && m < |d.models| && j < |d.models[m].params|
    ensures d.models[m].params[j].idx < |d.groups|
    ensures PlainMap(d.models[m].params[j].via, d.models[m].group, d.groups[d.models[m].params[j].idx])
    ensures d.groups[d.models[m].params[j].idx] < |p.shape|
  {
    hide Built;
    assert PlainModel(d, m);
  }

  lemma CheckPlain(d: Def, p: Problem, m: nat, j: nat)
    requires BuiltFrom(d, p) && m < |d.models| && j < |d.models[m].checks|
    ensures d.models[m].checks[j].idx < |d.shadows| && d.shadows[d.models[m].checks[j].idx] < |d.groups|
    ensures PlainMap(d.models[m].checks[j].via, d.models[m].group, d.groups[d.shadows[d.models[m].checks[j].idx]])
    ensures d.groups[d.shadows[d.models[m].checks[j].idx]] < |p.shape|
  {
    hide Built;
    assert PlainModel(d, m);
  }

  /** A candidate in the graph is one of the definitions. */
  lemma CandForDef(d: Def, p: Problem, x: Ref, ei: nat, i: nat)
    requires BuiltFrom(d, p) && IsCand(p, x, ei, i)
    ensures DefCand(d, p.shape, x, CandRef(p, x, ei, i), p.g.vars[x.idx].models[ei].ex)
  {
    hide BuiltFrom, DefOk;
    SameRefs(d, p);
    EdgeIsBackward(d, p, x.idx, ei);
    var e := p.g.vars[x.idx].models[ei];
    RetPlain(d, p, e.idx, e.ex);
    BackAre(p, d.models[e.idx].rets[e.ex].via, d.models[e.idx].group, d.groups[x.idx], x.inst);
    CandFits(d, p, x, ei, i);
    assert CandInsts(p, x, ei)[i] in CandInsts(p, x, ei);
  }

  /** And the other way around. */
  lemma CandFromDef(d: Def, p: Problem, x: Ref, m: Ref, l: nat) returns (ei: nat, i: nat)
    requires BuiltFrom(d, p) && DefCand(d, p.shape, x, m, l)
    ensures IsCand(p, x, ei, i) && CandRef(p, x, ei, i) == m && p.g.vars[x.idx].models[ei].ex == l
  {
    hide DefOk, Plain, Forwards, ParamEdges, CheckEdges, RetEdges, BuiltModel;
    SameRefs(d, p);
    RetPlain(d, p, m.idx, l);
    var a := d.models[m.idx];
    var e := Edge(m.idx, Back(a.rets[l].via, a.group), l);
    BackwardsAre(d, x.idx, |d.models|, e);
    assert e in p.g.vars[x.idx].models;
    ei :| 0 <= ei < |p.g.vars[x.idx].models| && p.g.vars[x.idx].models[ei] == e;
    BackAre(p, a.rets[l].via, a.group, d.groups[x.idx], x.inst);
    assert m.inst in CandInsts(p, x, ei);
    i :| 0 <= i < |CandInsts(p, x, ei)| && CandInsts(p, x, ei)[i] == m.inst;
  }

  lemma CheapestAgrees(d: Def, p: Problem, t: Truth, x: Ref)
    requires BuiltFrom(d, p) && IsVar(p, x)
    ensures Cheapest(p, t, x) <==> DefCheapest(d, p.shape, t, x)
  {
    hide BuiltFrom, DefCand;
    forall ei: nat, i: nat | IsCand(p, x, ei, i)
      ensures DefCand(d, p.shape, x, CandRef(p, x, ei, i), p.g.vars[x.idx].models[ei].ex)
    {
      CandForDef(d, p, x, ei, i);
    }
    forall m: Ref, l: nat | DefCand(d, p.shape, x, m, l)
      ensures exists ei: nat, i: nat :: IsCand(p, x, ei, i) && CandRef(p, x, ei, i) == m
    {
      var ei, i := CandFromDef(d, p, x, m, l);
    }
  }

  // ---------- graphs agree: what a model costs ----------

  /** The edge that parameter `j` of model `i` becomes, and the check that check `j` becomes. */
  function ParamEdge(d: Def, i: nat, j: nat): Edge
    requires DefOk(d) && i < |d.models| && j < |d.models[i].params|
  {
    var e := d.models[i].params[j];
    Edge(e.idx, Forth(e.via, d.groups[e.idx]), j)
  }

  function CheckEdge(d: Def, i: nat, j: nat): Check
    requires DefOk(d) && i < |d.models| && j < |d.models[i].checks|
  {
    var e := d.models[i].checks[j];
    Check(e.idx, Forth(e.via, d.groups[d.shadows[e.idx]]), e.penalty)
  }

  lemma {:induction false} MaxIsDearest(p: Problem, t: Truth, e: Edge, inst: nat, n: nat)
    requires n <= |Insts(p, e.via, inst)| && forall i :: 0 <= i < n ==> Insts(p, e.via, inst)[i] == i
    ensures EdgeMax(p, t, e, inst, n) == Dearest(t, e.idx, n)
  {
    if n > 0 {
      MaxIsDearest(p, t, e, inst, n - 1);
    }
  }

  lemma EdgeCosts(d: Def, p: Problem, t: Truth, m: Ref, j: nat)
    requires BuiltFrom(d, p) && IsDefModel(d, p.shape, m) && j < |d.models[m.idx].params|
    ensures EdgeCost(p, t, m.inst)(ParamEdge(d, m.idx, j)) == DefCost(d, p.shape, t, m, j)
  {
    assert DefOk(d);
    hide BuiltFrom, DefOk, Plain;
    ParamPlain(d, p, m.idx, j);
    var a := d.models[m.idx].params[j];
    var e := ParamEdge(d, m.idx, j);
    ForthAre(p, a.via, d.models[m.idx].group, d.groups[a.idx], m.inst);
    if a.via.XIdent? {
      assert EdgeMax(p, t, e, m.inst, 0) == Fin(0.0);
      assert EdgeMax(p, t, e, m.inst, 1) == Max(Fin(0.0), t.v(Ref(a.idx, m.inst)));
    } else {
      MaxIsDearest(p, t, e, m.inst, p.shape[d.groups[a.idx]]);
    }
  }

  lemma CheckFailsAs(d: Def, p: Problem, t: Truth, m: Ref, j: nat)
    requires BuiltFrom(d, p) && IsDefModel(d, p.shape, m) && j < |d.models[m.idx].checks|
    ensures Fails(p, t, CheckEdge(d, m.idx, j), m.inst) <==> DefFails(d, p.shape, p.guard, t, m, j)
  {
    assert DefOk(d);
    hide BuiltFrom, DefOk, Plain;
    CheckPlain(d, p, m.idx, j);
    SameRefs(d, p);
    var a := d.models[m.idx].checks[j];
    var c := CheckEdge(d, m.idx, j);
    var s := Insts(p, c.via, m.inst);
    ForthAre(p, a.via, d.models[m.idx].group, d.groups[d.shadows[a.idx]], m.inst);
    if i: nat :| FailsAt(p, t, c, m.inst, i) {
      assert s[i] in s;
      assert DefFailsAt(d, p.shape, p.guard, t, m, j, s[i]);
    }
    if i: nat :| DefFailsAt(d, p.shape, p.guard, t, m, j, i) {
      var k :| 0 <= k < |s| && s[k] == i;
      assert FailsAt(p, t, c, m.inst, k);
    }
  }

  lemma ParamsNext(d: Def, i: nat, n: nat)
    requires DefOk(d) && i < |d.models| && 0 < n <= |d.models[i].params|
    ensures ParamEdges(d, i, n)[n - 1] == ParamEdge(d, i, n - 1)
    ensures ParamEdges(d, i, n)[..n - 1] + ParamEdges(d, i, n)[n..] == ParamEdges(d, i, n - 1)
  {
    hide DefOk;
  }

  lemma {:induction false} ParamsCost(d: Def, p: Problem, t: Truth, m: Ref, n: nat)
    requires BuiltFrom(d, p) && IsDefModel(d, p.shape, m) && n <= |d.models[m.idx].params|
    ensures Sum(ParamEdges(d, m.idx, n), EdgeCost(p, t, m.inst)) == DefCosts(d, p.shape, t, m, n)
  {
    assert DefOk(d);
    hide BuiltFrom, DefOk, Plain, DefCost, EdgeCost, ParamEdges, ParamEdge;
    if n > 0 {
      ParamsCost(d, p, t, m, n - 1);
      EdgeCosts(d, p, t, m, n - 1);
      ParamsNext(d, m.idx, n);
      SumRemove(ParamEdges(d, m.idx, n), EdgeCost(p, t, m.inst), n - 1);
    }
  }

  function FirstChecks(d: Def, i: nat, n: nat): (cs: seq<Check>)
    requires DefOk(d) && i < |d.models| && n <= |d.models[i].checks|
    ensures |cs| == n
  {
    CheckEdges(d, i)[..n]
  }

  lemma ChecksNext(d: Def, i: nat, n: nat)
    requires DefOk(d) && i < |d.models| && 0 < n <= |d.models[i].checks|
    ensures FirstChecks(d, i, n)[n - 1] == CheckEdge(d, i, n - 1)
    ensures FirstChecks(d, i, n)[..n - 1] + FirstChecks(d, i, n)[n..] == FirstChecks(d, i, n - 1)
  {
  }

  lemma PenaltiesNext(d: Def, p: Problem, t: Truth, m: Ref, n: nat)
    requires BuiltFrom(d, p) && IsDefModel(d, p.shape, m) && n <= |d.models[m.idx].checks|
    ensures DefPenalties(d, p.shape, p.guard, t, m, n) ==
        if n == 0 then 0.0 else
          DefPenalties(d, p.shape, p.guard, t, m, n - 1)
          + if DefFails(d, p.shape, p.guard, t, m, n - 1) then d.models[m.idx].checks[n - 1].penalty else 0.0
  {
    hide BuiltFrom, Plain, DefFails;
  }

  lemma {:induction false} ChecksCost(d: Def, p: Problem, t: Truth, m: Ref, n: nat)
    requires BuiltFrom(d, p) && IsDefModel(d, p.shape, m) && n <= |d.models[m.idx].checks|
    ensures Sum(FirstChecks(d, m.idx, n), CheckCost(p, t, m.inst)) == Fin(DefPenalties(d, p.shape, p.guard, t, m, n))
  {
    assert DefOk(d);
    hide BuiltFrom, DefOk, Plain, DefFails, DefPenalties, Sum, FirstChecks, CheckEdge, CheckCost;
    PenaltiesNext(d, p, t, m, n);
    if n == 0 {
      SumNone(FirstChecks(d, m.idx, n), CheckCost(p, t, m.inst));
    } else {
      ChecksCost(d, p, t, m, n - 1);
      CheckAt(d, p, t, m, n - 1);
      ChecksNext(d, m.idx, n);
      SumRemove(FirstChecks(d, m.idx, n), CheckCost(p, t, m.inst), n - 1);
    }
  }

  lemma CheckAt(d: Def, p: Problem, t: Truth, m: Ref, j: nat)
    requires BuiltFrom(d, p) && IsDefModel(d, p.shape, m) && j < |d.models[m.idx].checks|
    ensures CheckCost(p, t, m.inst)(CheckEdge(d, m.idx, j)) ==
        Fin(if DefFails(d, p.shape, p.guard, t, m, j) then d.models[m.idx].checks[j].penalty else 0.0)
  {
    assert DefOk(d);
    hide BuiltFrom, DefOk, Plain, DefFails, Fails;
    CheckFailsAs(d, p, t, m, j);
  }

  /** The cost equation of a built model is the one of its definition, with its penalties, its maps, `k` and `c`. */
  lemma ModelCosts(d: Def, p: Problem, t: Truth, m: Ref)
    requires BuiltFrom(d, p) && GraphOk(p.g) && IsModel(p, m) && IsDefModel(d, p.shape, m)
    ensures ModelEquation(p, t, m) <==> t.m(m) == DefModelCost(d, p.shape, p.guard, t, m)
  {
    hide DefOk, Plain, Backwards, Forwards, ParamEdges, CheckEdges, RetEdges, GraphOk, ExactS, DefPenalties, DefCosts,
        Sum, EdgeCost, CheckCost;
    assert BuiltModel(d, p.g, m.idx);
    var a, b := d.models[m.idx], ModelOf(p, m);
    ExactSIs(p, t, m);
    SumPermuted(b.params, ParamEdges(d, m.idx, |a.params|), EdgeCost(p, t, m.inst));
    SumPermuted(b.checks, CheckEdges(d, m.idx), CheckCost(p, t, m.inst));
    ParamsCost(d, p, t, m, |a.params|);
    ChecksCost(d, p, t, m, |a.checks|);
    assert FirstChecks(d, m.idx, |a.checks|) == CheckEdges(d, m.idx);
  }

  // ---------- graphs agree: which models may be used ----------

  /** A parameter of the definition is one of the built model's. */
  lemma ParamBuilt(d: Def, p: Problem, m: nat, j: nat) returns (e: nat)
    requires BuiltFrom(d, p) && m < |p.g.models| && m < |d.models| && j < |d.models[m].params|
    ensures e < |p.g.models[m].params| && p.g.models[m].params[e] == ParamEdge(d, m, j)
  {
    hide DefOk, Plain, Backwards, Forwards;
    assert BuiltModel(d, p.g, m);
    var es := ParamEdges(d, m, |d.models[m].params|);
    assert es[j] in multiset(es);
    assert es[j] in p.g.models[m].params;
    e :| 0 <= e < |p.g.models[m].params| && p.g.models[m].params[e] == es[j];
  }

  lemma AvailableAgrees(d: Def, p: Problem, f: Flags, m: nat)
    requires BuiltFrom(d, p) && m < |d.models|
    ensures Available(p.g, f, m) <==> DefAvailable(d, f, m)
  {
    hide DefOk, Plain, Backwards, Forwards, ParamEdges, CheckEdges;
    assert BuiltModel(d, p.g, m);
    var a, b := d.models[m], p.g.models[m];
    forall j | 0 <= j < |a.rets|
      ensures b.rets[j].idx == a.rets[j].idx
    {
    }
    forall e | 0 <= e < |b.params|
      ensures exists j :: 0 <= j < |a.params| && a.params[j].idx == b.params[e].idx
    {
      var j := ParamOf(d, p, m, e);
    }
    forall j | 0 <= j < |a.params|
      ensures exists e :: 0 <= e < |b.params| && b.params[e].idx == a.params[j].idx
    {
      var e := ParamBuilt(d, p, m, j);
    }
  }

  // ---------- true costs agree ----------

  /** The true costs of a built graph are those of the definitions. */
  lemma TruthAgrees(d: Def, p: Problem, f: Flags, t: Truth)
    requires BuiltFrom(d, p) && FlagsFit(p.g, f) && NetOk(StartNet(p.g, f)) && ForwardsOk(p.g) && BackwardsOk(p.g)
    ensures FullSolution(p, StartNet(p.g, f), t) <==> DefTruth(d, p.shape, p.guard, f, t)
  {
    hide Built, DefOk, Plain, NetOk, ForwardsOk, BackwardsOk, SkipMarked, DefAvailable, DefModelCost, ModelEquation,
        DefCheapest, Cheapest, GraphOk;
    SameRefs(d, p);
    NetGraph(StartNet(p.g, f));
    forall x: Ref | IsVar(p, x)
      ensures Cheapest(p, t, x) <==> DefCheapest(d, p.shape, t, x)
    {
      CheapestAgrees(d, p, t, x);
    }
    forall m: Ref | IsModel(p, m)
      ensures StartNet(p.g, f).skipM[m.idx] <==> !DefAvailable(d, f, m.idx)
      ensures ModelEquation(p, t, m) <==> t.m(m) == DefModelCost(d, p.shape, p.guard, t, m)
    {
      SkipsExactly(p.g, f, m.idx);
      AvailableAgrees(d, p, f, m.idx);
      ModelCosts(d, p, t, m);
    }
  }

  lemma TakesAgrees(d: Def, p: Problem, m: Ref, y: Ref)
    requires BuiltFrom(d, p) && IsModel(p, m)
    ensures (exists e: nat, j: nat :: IsParam(p, m, e, j) && ParamRef(p, m, e, j) == y) <==>
        exists l: nat :: DefTakes(d, p.shape, m, l, y)
  {
    hide BuiltFrom, DefOk, Plain;
    SameRefs(d, p);
    if e: nat, j: nat :| IsParam(p, m, e, j) && ParamRef(p, m, e, j) == y {
      var l := ParamOf(d, p, m.idx, e);
      ParamPlain(d, p, m.idx, l);
      var a := d.models[m.idx].params[l];
      ForthAre(p, a.via, d.models[m.idx].group, d.groups[a.idx], m.inst);
      assert ParamInsts(p, m, e)[j] in ParamInsts(p, m, e);
      assert DefTakes(d, p.shape, m, l, y);
    }
    if l: nat :| DefTakes(d, p.shape, m, l, y) {
      var e := ParamBuilt(d, p, m.idx, l);
      ParamPlain(d, p, m.idx, l);
      var a := d.models[m.idx].params[l];
      ForthAre(p, a.via, d.models[m.idx].group, d.groups[a.idx], m.inst);
      assert y.inst in ParamInsts(p, m, e);
      var j :| 0 <= j < |ParamInsts(p, m, e)| && ParamInsts(p, m, e)[j] == y.inst;
      assert IsParam(p, m, e, j) && ParamRef(p, m, e, j) == y;
    }
  }

  lemma LowerAgrees(d: Def, p: Problem, rank: Ref -> nat, m: Ref, r: nat)
    requires BuiltFrom(d, p) && IsModel(p, m)
    ensures (forall e: nat, j: nat :: IsParam(p, m, e, j) ==> rank(ParamRef(p, m, e, j)) < r) <==>
        forall l: nat, y: Ref :: DefTakes(d, p.shape, m, l, y) ==> rank(y) < r
  {
    hide BuiltFrom, IsParam, DefTakes;
    forall e: nat, j: nat | IsParam(p, m, e, j)
      ensures exists l: nat :: DefTakes(d, p.shape, m, l, ParamRef(p, m, e, j))
    {
      TakesAgrees(d, p, m, ParamRef(p, m, e, j));
    }
    forall l: nat, y: Ref | DefTakes(d, p.shape, m, l, y)
      ensures exists e: nat, j: nat :: IsParam(p, m, e, j) && ParamRef(p, m, e, j) == y
    {
      TakesAgrees(d, p, m, y);
    }
  }

  /** What grounds them, too. */
  lemma GroundedAgrees(d: Def, p: Problem, f: Flags, t: Truth, rank: Ref -> nat)
    requires BuiltFrom(d, p) && FlagsFit(p.g, f) && NetOk(StartNet(p.g, f))
    ensures Grounded(p, StartNet(p.g, f), t, rank) <==> DefGrounded(d, p.shape, f, t, rank)
  {
    hide BuiltFrom, NetOk, SkipMarked, GroundedBy, DefGroundedBy;
    SameRefs(d, p);
    forall x: Ref | IsVar(p, x)
      ensures Grounds(p, t, rank, x) <==> DefGrounds(d, p.shape, t, rank, x)
    {
      GroundsAgree(d, p, t, rank, x);
    }
  }

  ghost predicate Grounds(p: Problem, t: Truth, rank: Ref -> nat, x: Ref)
    requires IsVar(p, x)
  {
    exists ei: nat, i: nat :: GroundedBy(p, t, rank, x, ei, i)
  }

  lemma GroundsAgree(d: Def, p: Problem, t: Truth, rank: Ref -> nat, x: Ref)
    requires BuiltFrom(d, p) && IsVar(p, x)
    ensures Grounds(p, t, rank, x) <==> DefGrounds(d, p.shape, t, rank, x)
  {
    hide BuiltFrom, GroundedBy, DefGroundedBy;
    if ei: nat, i: nat :| GroundedBy(p, t, rank, x, ei, i) {
      CandOf(p, t, rank, x, ei, i);
      GroundedDef(d, p, t, rank, x, ei, i);
    }
    if m: Ref, l: nat :| DefGroundedBy(d, p.shape, t, rank, x, m, l) {
      var ei, i := DefGround(d, p, t, rank, x, m, l);
    }
  }

  lemma CandOf(p: Problem, t: Truth, rank: Ref -> nat, x: Ref, ei: nat, i: nat)
    requires IsVar(p, x) && GroundedBy(p, t, rank, x, ei, i)
    ensures IsCand(p, x, ei, i)
  {
  }

  lemma GroundedDef(d: Def, p: Problem, t: Truth, rank: Ref -> nat, x: Ref, ei: nat, i: nat)
    requires BuiltFrom(d, p) && IsVar(p, x) && GroundedBy(p, t, rank, x, ei, i)
    ensures DefGroundedBy(d, p.shape, t, rank, x, CandRef(p, x, ei, i), p.g.vars[x.idx].models[ei].ex)
  {
    hide BuiltFrom, DefCand, DefTakes, IsParam;
    CandFits(d, p, x, ei, i);
    CandForDef(d, p, x, ei, i);
    LowerAgrees(d, p, rank, CandRef(p, x, ei, i), rank(x));
  }

  lemma DefGround(d: Def, p: Problem, t: Truth, rank: Ref -> nat, x: Ref, m: Ref, l: nat) returns (ei: nat, i: nat)
    requires BuiltFrom(d, p) && IsVar(p, x) && DefGroundedBy(d, p.shape, t, rank, x, m, l)
    ensures GroundedBy(p, t, rank, x, ei, i)
  {
    hide BuiltFrom, DefCand, DefTakes, IsParam;
    ei, i := CandFromDef(d, p, x, m, l);
    CandFits(d, p, x, ei, i);
    LowerAgrees(d, p, rank, m, rank(x));
  }
}
