/** From definitions to the answer: what is asked, and what the answer means, in terms of the definitions alone. */
module DefAnswers {
  import opened Costs
  import opened Graphs
  import opened Bounds
  import opened Selection
  import opened Pruner
  import opened Optimum
  import opened Build
  import opened EndToEnd
  import opened LeftValues
  import opened Plans
  import opened FromDefs
  import opened DefSpecs
  import Values
  import Outcomes
  import Obtaining
  import Fixpoints

  /** What the outside world answers, and on which spaces. */
  datatype Env = Env(shape: seq<nat>, umap: (nat, nat) -> seq<nat>, guard: Ref -> bool, given: Ref -> Value,
      call: (Ref, seq<seq<Value>>) -> seq<seq<Value>>)

  function On(w: Env, g: Graph): Problem {
    Problem(g, w.shape, w.umap, w.guard, w.given, w.call)
  }

  // ---------- values of definitions ----------

  /** The return, model instance, order and value of the variable instances that are evaluated. */
  datatype DefPlan = DefPlan(on: Ref -> bool, ret: Ref -> nat, model: Ref -> Ref, rank: Ref -> nat, val: Ref -> Value)

  /** Argument `j` of a model instance: the value at its own instance, or those of all instances in ascending order. */
  ghost predicate DefArg(d: Def, shape: seq<nat>, val: Ref -> Value, m: Ref, j: nat, arg: seq<Value>)
    requires DefOk(d) && Plain(d, shape) && IsDefModel(d, shape, m) && j < |d.models[m.idx].params|
  {
    var a := d.models[m.idx].params[j];
    if a.via.XIdent? then arg == [val(Ref(a.idx, m.inst))]
    else |arg| == shape[d.groups[a.idx]] && forall i :: 0 <= i < |arg| ==> arg[i] == val(Ref(a.idx, i))
  }

  /** All arguments, in the order of the definition. */
  ghost predicate DefArgs(d: Def, shape: seq<nat>, val: Ref -> Value, m: Ref, args: seq<seq<Value>>)
    requires DefOk(d) && Plain(d, shape) && IsDefModel(d, shape, m)
  {
    && |args| == |d.models[m.idx].params|
    && forall j :: 0 <= j < |args| ==> DefArg(d, shape, val, m, j, args[j])
  }

  /** `y` is what return `l` holds for instance `inst` of its variable. */
  predicate DefReturns(d: Def, m: nat, l: nat, out: seq<seq<Value>>, inst: nat, y: Value)
    requires m < |d.models| && l < |d.models[m].rets|
  {
    var i := if d.models[m].rets[l].via.XIdent? then 0 else inst;
    l < |out| && i < |out[l]| && out[l][i] == y
  }

  /** The chosen model is a cheapest one, what it takes comes earlier, and the value is what it returns for that. */
  ghost predicate DefComputed(d: Def, w: Env, t: Truth, plan: DefPlan, x: Ref)
    requires DefOk(d) && Plain(d, w.shape)
  {
    var m := plan.model(x);
    && DefCand(d, w.shape, x, m, plan.ret(x)) && t.m(m) == t.v(x)
    && (forall j: nat, y: Ref :: DefTakes(d, w.shape, m, j, y) ==> plan.on(y) && plan.rank(y) < plan.rank(x))
    && exists args :: DefArgs(d, w.shape, plan.val, m, args)
                      && DefReturns(d, m.idx, plan.ret(x), w.call(m, args), x.inst, plan.val(x))
  }

  ghost predicate DefPlanOk(d: Def, w: Env, t: Truth, f: Flags, plan: DefPlan)
    requires DefOk(d) && Plain(d, w.shape)
  {
    forall x :: plan.on(x) ==>
        IsDefVar(d, w.shape, x) &&
        if x.idx < |f.v| && f.v[x.idx].given then plan.val(x) == w.given(x) else DefComputed(d, w, t, plan, x)
  }

  /** `y` is a value of `x` along cheapest chains. */
  ghost predicate DefEvaluates(d: Def, w: Env, t: Truth, f: Flags, x: Ref, y: Value)
    requires DefOk(d) && Plain(d, w.shape)
  {
    exists plan :: DefPlanOk(d, w, t, f, plan) && plan.on(x) && plan.val(x) == y
  }

  /** Models return one value for the instance at hand, or one for every instance. */
  ghost predicate DefCallsFit(d: Def, w: Env)
    requires DefOk(d) && Plain(d, w.shape)
  {
    forall m: Ref, args: seq<seq<Value>> :: IsDefModel(d, w.shape, m) ==> DefOut(d, w.shape, m, w.call(m, args))
  }

  predicate DefOut(d: Def, shape: seq<nat>, m: Ref, out: seq<seq<Value>>)
    requires DefOk(d) && Plain(d, shape) && IsDefModel(d, shape, m)
  {
    var a := d.models[m.idx];
    && |out| == |a.rets|
    && forall l :: 0 <= l < |out| ==>
           |out[l]| == if a.rets[l].via.XIdent? then 1 else shape[d.groups[a.rets[l].idx]]
  }

  // ---------- values agree ----------

  lemma RetBuilt(d: Def, p: Problem, m: Ref, l: nat)
    requires BuiltFrom(d, p) && IsModel(p, m) && m.idx < |d.models| && l < |d.models[m.idx].rets|
    ensures |ModelOf(p, m).rets| == |d.models[m.idx].rets| && d.models[m.idx].rets[l].idx < |d.groups|
    ensures d.groups[d.models[m.idx].rets[l].idx] < |p.shape|
    ensures ModelOf(p, m).rets[l] == Edge(d.models[m.idx].rets[l].idx,
        Forth(d.models[m.idx].rets[l].via, d.groups[d.models[m.idx].rets[l].idx]), l)
  {
    hide Backwards, Forwards, ParamEdges, CheckEdges;
    assert BuiltModel(d, p.g, m.idx);
  }

  lemma RetInstsAre(d: Def, p: Problem, m: Ref, l: nat)
    requires BuiltFrom(d, p) && IsModel(p, m) && m.idx < |d.models| && l < |d.models[m.idx].rets|
    ensures l < |ModelOf(p, m).rets| == |d.models[m.idx].rets|
    ensures d.models[m.idx].rets[l].idx < |d.groups| && d.groups[d.models[m.idx].rets[l].idx] < |p.shape|
    ensures var s := Values.RetInsts(p, m, l); var a := d.models[m.idx].rets[l];
        if a.via.XIdent? then s == [m.inst]
        else |s| == p.shape[d.groups[a.idx]] && forall i :: 0 <= i < |s| ==> s[i] == i
  {
    hide BuiltFrom, DefOk, Plain;
    RetBuilt(d, p, m, l);
    RetPlain(d, p, m.idx, l);
    var a := d.models[m.idx].rets[l];
    SameRefs(d, p);
    ForthAre(p, a.via, d.models[m.idx].group, d.groups[a.idx], m.inst);
  }

  lemma CallsAgree(d: Def, p: Problem, w: Env)
    requires BuiltFrom(d, p) && p == On(w, p.g) && DefCallsFit(d, w)
    ensures CallsFit(p)
  {
    assert DefOk(d) && Plain(d, p.shape);
    hide BuiltFrom, DefOk, Plain, DefOut, Values.RetShape;
    SameRefs(d, p);
    forall m: Ref, args: seq<seq<Value>> | IsModel(p, m)
      ensures Values.RetShape(p, m, p.call(m, args))
    {
      assert DefOut(d, w.shape, m, w.call(m, args));
      OutAgrees(d, p, m, p.call(m, args));
    }
  }

  lemma OutAgrees(d: Def, p: Problem, m: Ref, out: seq<seq<Value>>)
    requires BuiltFrom(d, p) && IsModel(p, m) && IsDefModel(d, p.shape, m) && DefOut(d, p.shape, m, out)
    ensures Values.RetShape(p, m, out)
  {
    hide Built, DefOk, Plain, Values.RetInsts;
    RetsKept(d, p, m);
    forall l | 0 <= l < |out|
      ensures |out[l]| == |Values.RetInsts(p, m, l)|
    {
      RetInstsAre(d, p, m, l);
    }
  }

  lemma RetsKept(d: Def, p: Problem, m: Ref)
    requires BuiltFrom(d, p) && IsModel(p, m) && m.idx < |d.models|
    ensures |ModelOf(p, m).rets| == |d.models[m.idx].rets|
  {
    hide DefOk, Plain, Backwards, Forwards, ParamEdges, CheckEdges;
    assert BuiltModel(d, p.g, m.idx);
  }

  /** Picking a result for an instance is picking what the definition's return holds for it. */
  lemma PickAgrees(d: Def, p: Problem, x: Ref, ei: nat, m: Ref, out: seq<seq<Value>>)
    requires BuiltFrom(d, p) && IsDefModel(d, p.shape, m)
    requires Values.ReturnsTo(p, x, ei, m) && Values.RetShape(p, m, out)
    requires DefCand(d, p.shape, x, m, p.g.vars[x.idx].models[ei].ex)
    ensures DefReturns(d, m.idx, p.g.vars[x.idx].models[ei].ex, out, x.inst, Values.Pick(p, x, ei, m, out))
  {
    hide BuiltFrom, DefOk, Plain;
    var l := p.g.vars[x.idx].models[ei].ex;
    RetInstsAre(d, p, m, l);
    var s := Values.RetInsts(p, m, l);
    var i := Values.IndexOf(s, x.inst);
  }

  lemma ArgAgrees(d: Def, p: Problem, m: Ref, e: nat, val: Ref -> Value)
    requires BuiltFrom(d, p) && IsModel(p, m) && IsDefModel(d, p.shape, m) && e < |ModelOf(p, m).params|
    ensures ModelOf(p, m).params[e].ex < |d.models[m.idx].params|
    ensures DefArg(d, p.shape, val, m, ModelOf(p, m).params[e].ex, ArgOf(p, m, e, val))
  {
    assert DefOk(d) && Plain(d, p.shape);
    hide BuiltFrom, DefOk, Plain;
    var j := ParamOf(d, p, m.idx, e);
    ParamPlain(d, p, m.idx, j);
    var a := d.models[m.idx].params[j];
    SameRefs(d, p);
    ForthAre(p, a.via, d.models[m.idx].group, d.groups[a.idx], m.inst);
    var arg, s := ArgOf(p, m, e, val), Insts(p, Forth(a.via, d.groups[a.idx]), m.inst);
    assert ParamInsts(p, m, e) == s && ModelOf(p, m).params[e].idx == a.idx;
    forall i | 0 <= i < |arg|
      ensures arg[i] == val(Ref(a.idx, s[i]))
    {
      assert IsParam(p, m, e, i) && ParamRef(p, m, e, i) == Ref(a.idx, s[i]);
    }
    if a.via.XIdent? {
      assert arg == [val(Ref(a.idx, m.inst))];
    } else {
      forall i | 0 <= i < |arg|
        ensures arg[i] == val(Ref(a.idx, i))
      {
      }
    }
  }

  lemma ArgsAgree(d: Def, p: Problem, m: Ref, val: Ref -> Value)
    requires BuiltFrom(d, p) && IsModel(p, m) && IsDefModel(d, p.shape, m) && Values.EdgesOk(p)
    ensures DefArgs(d, p.shape, val, m, ArgsOf(p, m, val))
  {
    assert DefOk(d) && Plain(d, p.shape);
    hide BuiltFrom, DefOk, Plain, Values.EdgesOk, DefArg, ArgOf;
    ParamsKept(d, p, m);
    var args := ArgsOf(p, m, val);
    forall j | 0 <= j < |args|
      ensures DefArg(d, p.shape, val, m, j, args[j])
    {
      ArgAgrees(d, p, m, Values.ParamAt(p, m, j), val);
    }
  }

  lemma ParamsKept(d: Def, p: Problem, m: Ref)
    requires BuiltFrom(d, p) && IsModel(p, m) && m.idx < |d.models|
    ensures |ModelOf(p, m).params| == |d.models[m.idx].params|
  {
    hide DefOk, Plain, Backwards, Forwards, CheckEdges;
    assert BuiltModel(d, p.g, m.idx);
    SameLength(ParamEdges(d, m.idx, |d.models[m.idx].params|), ModelOf(p, m).params);
  }

  ghost function PlanOf(p: Problem, plan: Plan): DefPlan {
    DefPlan(plan.on, (x: Ref) => RetOf(p, x, plan.edge(x)), plan.model, plan.rank, plan.val)
  }

  function RetOf(p: Problem, x: Ref, ei: nat): nat {
    if x.idx < |p.g.vars| && ei < |p.g.vars[x.idx].models| then p.g.vars[x.idx].models[ei].ex else 0
  }

  lemma ComputedAgrees(d: Def, p: Problem, w: Env, t: Truth, plan: Plan, x: Ref)
    requires BuiltFrom(d, p) && p == On(w, p.g) && Values.EdgesOk(p) && IsVar(p, x) && Computed(p, t, plan, x)
    requires forall m: Ref, args: seq<seq<Value>> :: IsModel(p, m) ==> Values.RetShape(p, m, p.call(m, args))
    ensures DefComputed(d, w, t, PlanOf(p, plan), x)
  {
    assert DefOk(d) && Plain(d, p.shape);
    hide BuiltFrom, DefOk, Plain, Values.EdgesOk, Values.RetShape, Values.ReturnsTo, DefArgs, DefReturns, DefCand,
        DefTakes, ArgsOf, Values.Pick, IsCand;
    SameRefs(d, p);
    var m := plan.model(x);
    var i: nat :| IsCand(p, x, plan.edge(x), i) && CandRef(p, x, plan.edge(x), i) == m;
    CandForDef(d, p, x, plan.edge(x), i);
    forall j: nat, y: Ref | DefTakes(d, w.shape, m, j, y)
      ensures plan.on(y) && plan.rank(y) < plan.rank(x)
    {
      TakesAgrees(d, p, m, y);
      var e: nat, k: nat :| IsParam(p, m, e, k) && ParamRef(p, m, e, k) == y;
      assert Earlier(plan, y, x);
    }
    var args := ArgsOf(p, m, plan.val);
    ArgsAgree(d, p, m, plan.val);
    PickAgrees(d, p, x, plan.edge(x), m, p.call(m, args));
  }

  /** A value along cheapest chains of the built graph is one along cheapest chains of the definitions. */
  lemma ValuesAgree(d: Def, p: Problem, w: Env, t: Truth, f: Flags, x: Ref, y: Value)
    requires BuiltFrom(d, p) && p == On(w, p.g) && Values.EdgesOk(p) && CallsFit(p)
    requires Evaluates(p, t, FlaggedGiven(f), x, y)
    ensures DefEvaluates(d, w, t, f, x, y)
  {
    assert DefOk(d) && Plain(d, p.shape);
    hide BuiltFrom, DefOk, Plain, Values.EdgesOk, Values.RetShape, Computed, DefComputed;
    SameRefs(d, p);
    var plan :| PlanOk(p, t, FlaggedGiven(f), plan) && plan.on(x) && plan.val(x) == y;
    var q := PlanOf(p, plan);
    forall z | q.on(z)
      ensures IsDefVar(d, w.shape, z)
      ensures if z.idx < |f.v| && f.v[z.idx].given then q.val(z) == w.given(z) else DefComputed(d, w, t, q, z)
    {
      if !FlaggedGiven(f)(z.idx) {
        ComputedAgrees(d, p, w, t, plan, z);
      }
    }
    assert DefPlanOk(d, w, t, f, q);
  }

  // ---------- every definition can be built ----------

  predicate SplitAt(ps: seq<Edge>, n: nat, vs: seq<Var>) {
    n <= |ps| && forall i :: 0 <= i < |ps| ==> ps[i].idx < |vs| && (i < n <==> |vs[ps[i].idx].models| != 0)
  }

  lemma {:induction false} SplitExists(es: seq<Edge>, vs: seq<Var>) returns (ps: seq<Edge>, n: nat)
    requires forall i :: 0 <= i < |es| ==> es[i].idx < |vs|
    ensures multiset(ps) == multiset(es) && SplitAt(ps, n, vs)
  {
    if es == [] {
      ps, n := [], 0;
    } else {
      var rest, k := SplitExists(es[1..], vs);
      assert es == [es[0]] + es[1..] && rest == rest[..k] + rest[k..];
      if |vs[es[0].idx].models| != 0 {
        ps, n := [es[0]] + rest, k + 1;
      } else {
        ps, n := rest + [es[0]], k;
      }
    }
  }

  lemma {:induction false} ModelsExist(d: Def, vs: seq<Var>, n: nat) returns (ms: seq<Model>)
    requires DefOk(d) && |vs| == |d.groups| && n <= |d.models|
    ensures |ms| == n && forall m :: 0 <= m < n ==> ModelBuilt(d, vs, ms[m], m)
  {
    if n == 0 {
      ms := [];
    } else {
      var front := ModelsExist(d, vs, n - 1);
      var a := d.models[n - 1];
      var ps, k := SplitExists(ParamEdges(d, n - 1, |a.params|), vs);
      ms := front + [Model(a.group, a.k, a.c, a.cmin, CheckEdges(d, n - 1), k, ps, RetEdges(d, n - 1))];
    }
  }

  lemma GraphExists(d: Def) returns (g: Graph)
    requires DefOk(d)
    ensures Built(d, g)
  {
    hide DefOk, Backwards, Forwards, ParamEdges, CheckEdges, RetEdges;
    var vs := seq(|d.groups|, x requires 0 <= x < |d.groups| =>
      Var(d.groups[x], Backwards(d, x, |d.models|), Forwards(d, x, |d.models|)));
    var ms := ModelsExist(d, vs, |d.models|);
    g := Graph(vs, ms, d.shadows);
    forall m | 0 <= m < |d.models|
      ensures BuiltModel(d, g, m)
    {
      assert ModelBuilt(d, vs, ms[m], m);
    }
  }

  // ---------- from definitions to the answer ----------

  /** What the caller asks for: a variable of some definitions, under some flags; and its true costs. */
  ghost predicate Asks(d: Def, w: Env, f: Flags, t: Truth, rank: Ref -> nat, root: Ref) {
    && DefOk(d) && Plain(d, w.shape) && DefCallsFit(d, w) && |f.v| == |d.groups| && |f.m| == |d.models| && Unselects(f)
    && DefTruth(d, w.shape, w.guard, f, t) && DefGrounded(d, w.shape, f, t, rank)
    && IsDefVar(d, w.shape, root) && f.v[root.idx].select
  }

  /** A built graph meets what pruner and solver require, whatever the flags. */
  lemma BuiltNet(d: Def, p: Problem, w: Env, f: Flags)
    requires BuiltFrom(d, p) && p == On(w, p.g) && DefCallsFit(d, w) && |f.v| == |d.groups| && |f.m| == |d.models|
    ensures WellFormed(p) && Values.EdgesOk(p) && SimpleMaps(p) && ForwardsOk(p.g) && BackwardsOk(p.g) && CallsFit(p)
    ensures FlagsFit(p.g, f) && NetOk(StartNet(p.g, f)) && GraphOk(p.g)
  {
    hide BuiltFrom, CallsFit, DefCallsFit, NetOk, WellFormed, Values.EdgesOk, SimpleMaps, ForwardsOk, BackwardsOk,
        GraphOk;
    SameRefs(d, p);
    CallsAgree(d, p, w);
    BuiltReady(d, p);
    FormedGraph(p);
    StartNetOk(p.g, f);
  }

  /** Whatever is defined, flagged and asked for has true costs that come from somewhere. */
  lemma AsksAny(d: Def, w: Env, f: Flags, root: Ref) returns (t: Truth, rank: Ref -> nat)
    requires DefOk(d) && Plain(d, w.shape) && DefCallsFit(d, w) && |f.v| == |d.groups| && |f.m| == |d.models|
    requires Unselects(f) && IsDefVar(d, w.shape, root) && f.v[root.idx].select
    ensures Asks(d, w, f, t, rank, root)
  {
    hide Built, Plain, DefOk, DefCallsFit, FullSolution, Grounded, NetOk, WellFormed, Values.EdgesOk, SimpleMaps,
        ForwardsOk, BackwardsOk, Unselects, DefTruth, DefGrounded, GraphOk;
    var g := GraphExists(d);
    var p := On(w, g);
    BuiltNet(d, p, w, f);
    t, rank := Fixpoints.FullExists(p, StartNet(g, f));
    TruthAgrees(d, p, f, t);
    GroundedAgrees(d, p, f, t, rank);
  }

  lemma AsksRequest(d: Def, w: Env, p: Problem, f: Flags, t: Truth, rank: Ref -> nat, root: Ref)
    requires Asks(d, w, f, t, rank, root) && BuiltFrom(d, p) && p == On(w, p.g)
    ensures Request(p, f, t, rank, root) && CallsFit(p)
  {
    hide Built, Plain, DefOk, DefCallsFit, FullSolution, Grounded, NetOk, WellFormed, Values.EdgesOk, SimpleMaps,
        ForwardsOk, BackwardsOk, Unselects, DefTruth, DefGrounded, GraphOk, CallsFit;
    SameRefs(d, p);
    BuiltNet(d, p, w, f);
    TruthAgrees(d, p, f, t);
    GroundedAgrees(d, p, f, t, rank);
  }

  /** Whichever order a builder chooses, the true costs are the same. */
  lemma SameTruth(d: Def, w: Env, p: Problem, q: Problem, f: Flags, t: Truth, rank: Ref -> nat)
    requires BuiltFrom(d, p) && BuiltFrom(d, q) && p == On(w, p.g) && q == On(w, q.g) && DefCallsFit(d, w)
    requires |f.v| == |d.groups| && |f.m| == |d.models| && FlagsFit(p.g, f) && NetOk(StartNet(p.g, f))
    requires FullSolution(p, StartNet(p.g, f), t) && Grounded(p, StartNet(p.g, f), t, rank)
    ensures FlagsFit(q.g, f) && NetOk(StartNet(q.g, f))
    ensures FullSolution(q, StartNet(q.g, f), t) && Grounded(q, StartNet(q.g, f), t, rank)
  {
    hide Built, Plain, DefOk, DefCallsFit, FullSolution, Grounded, NetOk, WellFormed, Values.EdgesOk, SimpleMaps,
        ForwardsOk, BackwardsOk, DefTruth, DefGrounded, GraphOk, CallsFit;
    BuiltNet(d, p, w, f);
    BuiltNet(d, q, w, f);
    TruthAgrees(d, p, f, t);
    TruthAgrees(d, q, f, t);
    GroundedAgrees(d, p, f, t, rank);
    GroundedAgrees(d, q, f, t, rank);
  }

  /** Builds the graph of the definitions, prunes it, builds what is left, and solves for `root` there. The true costs
      and the value are those of the definitions; `q` is the problem on the graph that was built. */
  method BuildAndSolve(d: Def, w: Env, spread: Edge -> Cost, f: Flags, root: Ref, ghost t: Truth,
      ghost rank: Ref -> nat)
    returns (q: Problem, r: Answer)
    requires Asks(d, w, f, t, rank, root)
    ensures q == On(w, q.g) && BuiltExactly(d, q.g) && WellFormed(q) && ForwardsOk(q.g) && BackwardsOk(q.g)
    ensures FlagsFit(q.g, f)
    ensures r.Exactly? ==> r.cost == t.v(root) && Le(r.cost, Fin(MAX_COST))
    ensures r.Exactly? ==> DefEvaluates(d, w, t, f, root, r.value)
    ensures r.TooDear? ==> Lt(Fin(MAX_COST), t.v(root))
    ensures r.Refusal? <==> Outcomes.Refuses(q.g, f)
    ensures r.Refusal? <==> Clash(f) || Obtaining.Wanting(q.g, f)
    ensures r.Refusal? ==> Obtaining.Blames(q.g, f, r.at)
    ensures r.NotBuilt? <==> !Outcomes.Refuses(q.g, f) && Outcomes.LosesCheck(q.g, f)
    ensures r.GaveUp? ==> Overtaxed(q, root, r.why)
  {
    assert DefOk(d) && Plain(d, w.shape);
    hide Asks, Request, Built, Plain, DefOk, GraphOk, WellFormed, ForwardsOk, BackwardsOk, Outcomes.Refuses,
        Outcomes.LosesCheck, Overtaxed, Values.EdgesOk, Evaluates, Clash, Obtaining.Wanting, Obtaining.Blames,
        BuiltExactly, CallsFit, DefEvaluates, ModelSorted;
    var g := BuildGraph(d, spread);
    q := On(w, g);
    AsksRequest(d, w, q, f, t, rank, root);
    RequestParts(q, f, t, rank, root);
    r := PruneAndSolve(q, f, root, t, rank);
    if r.Exactly? {
      ValuesAgree(d, q, w, t, f, root, r.value);
    }
  }

  lemma RequestParts(p: Problem, f: Flags, t: Truth, rank: Ref -> nat, root: Ref)
    requires Request(p, f, t, rank, root)
    ensures WellFormed(p) && ForwardsOk(p.g) && BackwardsOk(p.g) && FlagsFit(p.g, f) && GraphOk(p.g)
    ensures Values.EdgesOk(p)
  {
  }
}
