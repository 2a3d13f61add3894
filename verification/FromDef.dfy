/** From model definitions to the solver's answer: the built graph has everything that pruner and solver rely on. */
module FromDefs {
  import opened Costs
  import opened Graphs
  import opened Bounds
  import opened Selection
  import opened Pruner
  import opened Optimum
  import opened Build
  import opened EndToEnd
  import opened LeftValues
  import opened Plans
  import Values
  import Sums
  import Outcomes
  import Obtaining
  import Fixpoints

  /** An identity map needs equal groups, and spaces need no more; user maps are out. */
  predicate PlainMap(via: ExtMap, from: nat, to: nat) {
    via.XSpace? || (via.XIdent? && from == to)
  }

  predicate PlainModel(d: Def, m: nat)
    requires DefOk(d) && m < |d.models|
  {
    var a := d.models[m];
    && (forall j :: 0 <= j < |a.params| ==> PlainMap(a.params[j].via, a.group, d.groups[a.params[j].idx]))
    && (forall j :: 0 <= j < |a.rets| ==> PlainMap(a.rets[j].via, a.group, d.groups[a.rets[j].idx]))
    && (forall j :: 0 <= j < |a.checks| ==> PlainMap(a.checks[j].via, a.group, d.groups[d.shadows[a.checks[j].idx]]))
  }

  /** Definitions without user maps, over nonempty groups. */
  predicate Plain(d: Def, shape: seq<nat>)
    requires DefOk(d)
  {
    && (forall x :: 0 <= x < |d.groups| ==> d.groups[x] < |shape| && shape[d.groups[x]] > 0)
    && (forall m :: 0 <= m < |d.models| ==>
        d.models[m].group < |shape| && shape[d.models[m].group] > 0 && PlainModel(d, m))
  }

  /** A problem on a graph that was built from `d`. */
  ghost predicate BuiltFrom(d: Def, p: Problem) {
    DefOk(d) && Plain(d, p.shape) && Built(d, p.g)
  }

  // ---------- maps stay inside their spaces ----------

  lemma ForthIn(p: Problem, via: ExtMap, from: nat, to: nat, inst: nat)
    requires PlainMap(via, from, to) && inst < Shape(p, from) && to < |p.shape| && p.shape[to] > 0
    ensures SimpleMap(p, Forth(via, to))
    ensures forall i :: 0 <= i < |Insts(p, Forth(via, to), inst)| ==> Insts(p, Forth(via, to), inst)[i] < Shape(p, to)
  {
  }

  lemma BackIn(p: Problem, via: ExtMap, from: nat, to: nat, inst: nat)
    requires PlainMap(via, from, to) && inst < Shape(p, to) && from < |p.shape| && p.shape[from] > 0
    ensures SimpleMap(p, Back(via, from))
    ensures forall i :: 0 <= i < |Insts(p, Back(via, from), inst)| ==>
        Insts(p, Back(via, from), inst)[i] < Shape(p, from)
  {
  }

  lemma PlainGroups(d: Def, p: Problem, m: nat)
    requires BuiltFrom(d, p) && m < |d.models|
    ensures PlainModel(d, m) && m < |p.g.models| && BuiltModel(d, p.g, m)
    ensures d.models[m].group < |p.shape| && p.shape[d.models[m].group] > 0 && p.g.models[m].group == d.models[m].group
    ensures forall x :: 0 <= x < |d.groups| ==>
        x < |p.g.vars| && p.g.vars[x].group == d.groups[x] < |p.shape| && p.shape[d.groups[x]] > 0
  {
    hide DefOk, Backwards, Forwards, PlainModel;
  }

  /** A model edge leads to a return edge that leads back. */
  lemma EdgeIsBackward(d: Def, p: Problem, x: nat, ei: nat)
    requires BuiltFrom(d, p) && x < |p.g.vars| && ei < |p.g.vars[x].models|
    ensures x < |d.groups| && IsBackward(d, x, p.g.vars[x].models[ei])
  {
    hide DefOk, Plain, Forwards, BuiltModel, IsBackward;
    var e := p.g.vars[x].models[ei];
    BackwardsAre(d, x, |d.models|, e);
    assert e in Backwards(d, x, |d.models|);
  }

  lemma CandFits(d: Def, p: Problem, x: Ref, ei: nat, i: nat)
    requires BuiltFrom(d, p) && IsCand(p, x, ei, i)
    ensures IsModel(p, CandRef(p, x, ei, i)) && Values.ReturnsTo(p, x, ei, CandRef(p, x, ei, i))
    ensures SimpleMap(p, p.g.vars[x.idx].models[ei].via)
  {
    hide DefOk, Plain, Built, BuiltModel;
    EdgeIsBackward(d, p, x.idx, ei);
    var e := p.g.vars[x.idx].models[ei];
    PlainGroups(d, p, e.idx);
    var r := d.models[e.idx].rets[e.ex];
    assert PlainMap(r.via, d.models[e.idx].group, d.groups[x.idx]);
    BackIn(p, r.via, d.models[e.idx].group, d.groups[x.idx], x.inst);
    var m := CandRef(p, x, ei, i);
    assert IsModel(p, m);
    RetBack(d, p, m, e.ex, x, i);
  }

  /** The return edge of a candidate leads back to where it came from. */
  lemma RetBack(d: Def, p: Problem, m: Ref, j: nat, x: Ref, i: nat)
    requires BuiltFrom(d, p) && IsModel(p, m) && m.idx < |d.models| && j < |d.models[m.idx].rets| && IsVar(p, x)
    requires d.models[m.idx].rets[j].idx == x.idx
    requires PlainMap(d.models[m.idx].rets[j].via, d.models[m.idx].group, d.groups[x.idx])
    requires d.models[m.idx].rets[j].via.XIdent? ==> m.inst == x.inst
    ensures j < |ModelOf(p, m).rets| && ModelOf(p, m).rets[j].idx == x.idx && x.inst in Values.RetInsts(p, m, j)
  {
    hide DefOk, Plain, PlainModel, Backwards, Forwards;
    assert BuiltModel(d, p.g, m.idx);
    PlainGroups(d, p, m.idx);
    var via := d.models[m.idx].rets[j].via;
    assert ModelOf(p, m).rets[j] == Edge(x.idx, Forth(via, d.groups[x.idx]), j);
    var s := Insts(p, Forth(via, d.groups[x.idx]), m.inst);
    if via.XIdent? {
      assert s[0] == x.inst;
    } else {
      assert s[x.inst] == x.inst;
    }
  }

  /** A parameter of the built model is one of the definition's, in another place. */
  lemma ParamOf(d: Def, p: Problem, m: nat, e: nat) returns (l: nat)
    requires BuiltFrom(d, p) && m < |p.g.models| && e < |p.g.models[m].params|
    ensures m < |d.models| && l < |d.models[m].params|
    ensures p.g.models[m].params[e] == Edge(d.models[m].params[l].idx,
        Forth(d.models[m].params[l].via, d.groups[d.models[m].params[l].idx]), l)
  {
    hide DefOk, Plain, Backwards, Forwards;
    assert BuiltModel(d, p.g, m);
    var es := ParamEdges(d, m, |d.models[m].params|);
    assert p.g.models[m].params[e] in multiset(p.g.models[m].params);
    assert p.g.models[m].params[e] in es;
    l :| 0 <= l < |es| && es[l] == p.g.models[m].params[e];
  }

  lemma ParamFits(d: Def, p: Problem, m: Ref, e: nat, i: nat)
    requires BuiltFrom(d, p) && IsParam(p, m, e, i)
    ensures IsVar(p, ParamRef(p, m, e, i)) && SimpleMap(p, ModelOf(p, m).params[e].via)
  {
    hide DefOk, Plain, Built;
    var l := ParamOf(d, p, m.idx, e);
    PlainGroups(d, p, m.idx);
    var a := d.models[m.idx].params[l];
    GroupOf(d, m.idx, l);
    assert PlainMap(a.via, d.models[m.idx].group, d.groups[a.idx]);
    ForthIn(p, a.via, d.models[m.idx].group, d.groups[a.idx], m.inst);
  }

  lemma GroupOf(d: Def, m: nat, l: nat)
    requires DefOk(d) && m < |d.models| && l < |d.models[m].params|
    ensures d.models[m].params[l].idx < |d.groups|
  {
  }

  lemma CheckOf(d: Def, p: Problem, m: nat, e: nat) returns (l: nat)
    requires BuiltFrom(d, p) && m < |p.g.models| && e < |p.g.models[m].checks|
    ensures m < |d.models| && l < |d.models[m].checks| && d.models[m].checks[l].idx < |d.shadows|
    ensures d.shadows[d.models[m].checks[l].idx] < |d.groups|
    ensures p.g.models[m].checks[e].idx == d.models[m].checks[l].idx
    ensures p.g.models[m].checks[e].via == Forth(d.models[m].checks[l].via,
        d.groups[d.shadows[d.models[m].checks[l].idx]])
  {
    hide Plain, Backwards, Forwards;
    assert BuiltModel(d, p.g, m);
    var cs := CheckEdges(d, m);
    assert p.g.models[m].checks[e] in multiset(p.g.models[m].checks);
    assert p.g.models[m].checks[e] in cs;
    l :| 0 <= l < |cs| && cs[l] == p.g.models[m].checks[e];
  }

  lemma CheckFits(d: Def, p: Problem, m: Ref, e: nat, i: nat)
    requires BuiltFrom(d, p) && IsCheck(p, m, e, i)
    ensures IsShadow(p, CheckRef(p, m, e, i)) && SimpleMap(p, ModelOf(p, m).checks[e].via)
  {
    hide DefOk, Plain, BuiltModel;
    var l := CheckOf(d, p, m.idx, e);
    PlainGroups(d, p, m.idx);
    var a := d.models[m.idx].checks[l];
    assert PlainMap(a.via, d.models[m.idx].group, d.groups[d.shadows[a.idx]]);
    ForthIn(p, a.via, d.models[m.idx].group, d.groups[d.shadows[a.idx]], m.inst);
    assert p.g.shadows == d.shadows;
  }

  lemma SplitFits(d: Def, p: Problem, m: nat, e: nat)
    requires BuiltFrom(d, p) && m < |p.g.models| && e < |p.g.models[m].params|
    ensures e < p.g.models[m].cparam <==> !Given(p.g, p.g.models[m].params[e].idx)
  {
    hide DefOk, Plain, Backwards, Forwards, ParamEdges, CheckEdges;
    assert BuiltModel(d, p.g, m);
  }

  /** Built graphs are well formed. */
  lemma BuiltFormed(d: Def, p: Problem)
    requires BuiltFrom(d, p)
    ensures WellFormed(p)
  {
    assert GraphOk(p.g) by {
      BuiltGraphOk(d, p.g);
    }
    hide BuiltFrom, GraphOk;
    forall x: Ref, ei: nat, i: nat | IsCand(p, x, ei, i)
      ensures IsModel(p, CandRef(p, x, ei, i))
    {
      CandFits(d, p, x, ei, i);
    }
    forall m: Ref, e: nat, i: nat | IsCheck(p, m, e, i)
      ensures IsShadow(p, CheckRef(p, m, e, i))
    {
      CheckFits(d, p, m, e, i);
    }
    forall m: Ref, e: nat, i: nat | IsParam(p, m, e, i)
      ensures IsVar(p, ParamRef(p, m, e, i))
    {
      ParamFits(d, p, m, e, i);
    }
    forall m: Ref, e: nat | IsModel(p, m) && e < |ModelOf(p, m).params|
      ensures e < ModelOf(p, m).cparam <==> !Given(p.g, ModelOf(p, m).params[e].idx)
    {
      SplitFits(d, p, m.idx, e);
    }
  }

  // ---------- argument order and returns ----------

  /** `ex` permutes the parameters. */
  lemma BuiltEx(d: Def, p: Problem, m: Ref)
    requires BuiltFrom(d, p) && IsModel(p, m)
    ensures forall e: nat :: e < |ModelOf(p, m).params| ==> ModelOf(p, m).params[e].ex < |ModelOf(p, m).params|
    ensures forall i, j :: 0 <= i < j < |ModelOf(p, m).params| ==>
        ModelOf(p, m).params[i].ex != ModelOf(p, m).params[j].ex
    ensures forall l: nat :: l < |ModelOf(p, m).params| ==> Values.HasEx(p, m, l)
  {
    hide DefOk, Plain, Backwards, Forwards, CheckEdges;
    assert BuiltModel(d, p.g, m.idx);
    var es, qs := ParamEdges(d, m.idx, |d.models[m.idx].params|), ModelOf(p, m).params;
    SameLength(es, qs);
    ExDistinct(es, qs);
    forall e: nat | e < |qs|
      ensures qs[e].ex < |qs|
    {
      var l := ParamOf(d, p, m.idx, e);
    }
    forall l: nat | l < |qs|
      ensures Values.HasEx(p, m, l)
    {
      assert es[l] in multiset(es);
      assert es[l] in qs;
      var e :| 0 <= e < |qs| && qs[e] == es[l];
      assert Values.IsExOf(p, m, l, e);
    }
  }

  /** Models return one value per instance of every return edge. */
  ghost predicate CallsFit(p: Problem) {
    forall m: Ref, args: seq<seq<Value>> :: IsModel(p, m) ==> Values.RetShape(p, m, p.call(m, args))
  }

  lemma BuiltEdgesOk(d: Def, p: Problem)
    requires BuiltFrom(d, p) && CallsFit(p)
    ensures Values.EdgesOk(p)
  {
    hide BuiltFrom, Values.HasEx, Values.ReturnsTo, Values.RetShape;
    forall m: Ref | IsModel(p, m)
      ensures forall e: nat :: e < |ModelOf(p, m).params| ==> ModelOf(p, m).params[e].ex < |ModelOf(p, m).params|
      ensures forall i, j :: 0 <= i < j < |ModelOf(p, m).params| ==>
          ModelOf(p, m).params[i].ex != ModelOf(p, m).params[j].ex
      ensures forall l: nat :: l < |ModelOf(p, m).params| ==> Values.HasEx(p, m, l)
    {
      BuiltEx(d, p, m);
    }
    forall m: Ref, l: nat, e: nat, c: nat | Values.IsExOf(p, m, l, e) && Values.IsExOf(p, m, l, c)
      ensures e == c
    {
      assert ModelOf(p, m).params[e].ex == ModelOf(p, m).params[c].ex;
    }
    forall x: Ref, ei: nat, i: nat | IsCand(p, x, ei, i)
      ensures Values.ReturnsTo(p, x, ei, CandRef(p, x, ei, i))
    {
      CandFits(d, p, x, ei, i);
    }
  }

  lemma BuiltSimple(d: Def, p: Problem)
    requires BuiltFrom(d, p)
    ensures SimpleMaps(p)
  {
    hide DefOk, Plain, Built, BuiltModel;
    forall x, i | 0 <= x < |p.g.vars| && 0 <= i < |p.g.vars[x].models|
      ensures SimpleMap(p, p.g.vars[x].models[i].via)
    {
      ModelMap(d, p, x, i);
    }
    forall m, i | 0 <= m < |p.g.models| && 0 <= i < |p.g.models[m].params|
      ensures SimpleMap(p, p.g.models[m].params[i].via)
    {
      var l := ParamOf(d, p, m, i);
      PlainGroups(d, p, m);
      GroupOf(d, m, l);
      assert PlainMap(d.models[m].params[l].via, d.models[m].group, d.groups[d.models[m].params[l].idx]);
    }
    forall m, i | 0 <= m < |p.g.models| && 0 <= i < |p.g.models[m].checks|
      ensures SimpleMap(p, p.g.models[m].checks[i].via)
    {
      var l := CheckOf(d, p, m, i);
      PlainGroups(d, p, m);
    }
    forall m, i | 0 <= m < |p.g.models| && 0 <= i < |p.g.models[m].rets|
      ensures SimpleMap(p, p.g.models[m].rets[i].via)
    {
      RetMap(d, p, m, i);
    }
  }

  lemma ModelMap(d: Def, p: Problem, x: nat, i: nat)
    requires BuiltFrom(d, p) && x < |p.g.vars| && i < |p.g.vars[x].models|
    ensures SimpleMap(p, p.g.vars[x].models[i].via)
  {
    hide DefOk, Plain, Built, BuiltModel;
    EdgeIsBackward(d, p, x, i);
    var e := p.g.vars[x].models[i];
    PlainGroups(d, p, e.idx);
    assert PlainMap(d.models[e.idx].rets[e.ex].via, d.models[e.idx].group, d.groups[x]);
  }

  lemma RetMap(d: Def, p: Problem, m: nat, i: nat)
    requires BuiltFrom(d, p) && m < |p.g.models| && i < |p.g.models[m].rets|
    ensures SimpleMap(p, p.g.models[m].rets[i].via)
  {
    hide Plain, Backwards, Forwards, ParamEdges, CheckEdges;
    assert BuiltModel(d, p.g, m);
    PlainGroups(d, p, m);
    assert PlainMap(d.models[m].rets[i].via, d.models[m].group, d.groups[d.models[m].rets[i].idx]);
  }

  /** What the builder delivers is what pruner and solver rely on. */
  lemma BuiltReady(d: Def, p: Problem)
    requires BuiltFrom(d, p) && CallsFit(p)
    ensures WellFormed(p) && Values.EdgesOk(p) && SimpleMaps(p) && ForwardsOk(p.g) && BackwardsOk(p.g)
  {
    assert BuiltFrom(d, p) && DefOk(d) && Built(d, p.g);
    hide WellFormed, Values.EdgesOk, SimpleMaps, ForwardsOk, BackwardsOk, Built, Plain, DefOk, CallsFit;
    BuiltFormed(d, p);
    BuiltEdgesOk(d, p);
    BuiltSimple(d, p);
    BuiltForwards(d, p.g);
    BuiltBackwards(d, p.g);
  }

  lemma NetGraph(n: Net)
    requires NetOk(n)
    ensures GraphOk(n.g)
  {
  }
}
