/** Which variables can be had at all, from the graph and the caller's flags alone, and when a request is refused. */
module Obtaining {
  import opened Costs
  import opened Graphs
  import opened Heaps
  import opened Bounds
  import opened Selection
  import opened Pruner
  import opened PrunedGraph
  import opened Outcomes

  /** `d` gets `x` from given variables, by models that may be used. The pessimistic colour does without returns through
      user maps, since these may be empty. */
  ghost predicate Obtains(g: Graph, f: Flags, c: Color, x: nat, d: Deriv)
    decreases d, 1
  {
    match d
    case Free => x < |f.v| && f.v[x].given
    case By(m, subs) => ObtainsModel(g, f, c, d) && Offers(g, c, m, x)
  }

  ghost predicate Offers(g: Graph, c: Color, m: nat, x: nat)
    requires m < |g.models|
  {
    exists j ::
      0 <= j < |g.models[m].rets| && g.models[m].rets[j].idx == x && (c == Black ==> !g.models[m].rets[j].via.User?)
  }

  /** `d` gets all that its model takes; the optimistic colour does without parameters through user maps. */
  ghost predicate ObtainsModel(g: Graph, f: Flags, c: Color, d: Deriv)
    requires d.By?
    decreases d, 0
  {
    && Available(g, f, d.m) && |d.subs| == |g.models[d.m].params|
    && (forall j :: 0 <= j < |d.subs| && (c == Gray ==> !g.models[d.m].params[j].via.User?) ==>
        Obtains(g, f, c, g.models[d.m].params[j].idx, d.subs[j]))
  }

  /** There is a way to get the node. */
  ghost predicate Obtainable(g: Graph, f: Flags, c: Color, u: Node) {
    if u.V? then exists d :: Obtains(g, f, c, u.x, d)
    else exists d: Deriv :: d.By? && d.m == u.m && ObtainsModel(g, f, c, d)
  }

  lemma {:induction false} ObtainsDerives(g: Graph, f: Flags, c: Color, x: nat, d: Deriv)
    requires GraphOk(g) && ForwardsOk(g) && BackwardsOk(g) && FlagsFit(g, f) && NetOk(StartNet(g, f))
    ensures Obtains(g, f, c, x, d) <==> Derives(StartNet(g, f), c, x, d)
    decreases d, 1
  {
    hide GraphOk, ForwardsOk, BackwardsOk, NetOk, Available, ModelDerives, ObtainsModel, SkipMarked, Offers;
    if d.By? {
      ModelObtains(g, f, c, d);
      if ObtainsModel(g, f, c, d) {
        ModelIn(g, f, c, d);
        SameReturn(g, f, c, x, d.m);
      }
    }
  }

  lemma ModelIn(g: Graph, f: Flags, c: Color, d: Deriv)
    requires d.By? && ObtainsModel(g, f, c, d)
    ensures d.m < |g.models|
  {
  }

  lemma SameReturn(g: Graph, f: Flags, c: Color, x: nat, m: nat)
    requires FlagsFit(g, f) && m < |g.models|
    ensures ReturnsVar(StartNet(g, f), c, m, x) <==> Offers(g, c, m, x)
  {
  }

  lemma {:induction false} ModelObtains(g: Graph, f: Flags, c: Color, d: Deriv)
    requires GraphOk(g) && ForwardsOk(g) && BackwardsOk(g) && FlagsFit(g, f) && NetOk(StartNet(g, f)) && d.By?
    ensures ObtainsModel(g, f, c, d) <==> ModelDerives(StartNet(g, f), c, d)
    decreases d, 0
  {
    hide GraphOk, ForwardsOk, BackwardsOk, NetOk, SkipMarked;
    if d.m < |g.models| && |d.subs| == |g.models[d.m].params| {
      SkipsExactly(g, f, d.m);
      forall j | 0 <= j < |d.subs|
        ensures Obtains(g, f, c, g.models[d.m].params[j].idx, d.subs[j]) <==>
            Derives(StartNet(g, f), c, g.models[d.m].params[j].idx, d.subs[j])
      {
        ObtainsDerives(g, f, c, g.models[d.m].params[j].idx, d.subs[j]);
      }
    }
  }

  function BoundsOf(k: Bounded, c: Color): Limits {
    if c == Gray then k.gray else k.black
  }

  function BoundAt(l: Limits, u: Node): Cost {
    if u.V? then (if u.x < |l.v| then l.v[u.x] else Inf) else if u.m < |l.m| then l.m[u.m] else Inf
  }

  /** A node has a bound of either colour exactly if there is a way to get it. */
  lemma BoundIffObtainable(g: Graph, f: Flags, k: Bounded, c: Color, u: Node)
    requires GraphOk(g) && ForwardsOk(g) && BackwardsOk(g) && FlagsFit(g, f) && BothLeast(StartNet(g, f), k)
    requires IsNode(k, u)
    ensures BoundAt(BoundsOf(k, c), u).Fin? <==> Obtainable(g, f, c, u)
  {
    hide GraphOk, ForwardsOk, BackwardsOk, SkipMarked, Obtains, ObtainsModel, PreFixpoint, NetOk;
    var n, l := StartNet(g, f), BoundsOf(k, c);
    if u.V? {
      LeastIsMinimum(n, c, l, u.x);
      forall d
        ensures Obtains(g, f, c, u.x, d) <==> Derives(n, c, u.x, d)
      {
        ObtainsDerives(g, f, c, u.x, d);
      }
    } else {
      forall d: Deriv | d.By?
        ensures ObtainsModel(g, f, c, d) <==> ModelDerives(n, c, d)
        ensures ModelDerives(n, c, d) && d.m == u.m ==> l.m[u.m].Fin?
      {
        ModelObtains(g, f, c, d);
        if ModelDerives(n, c, d) {
          ModelBoundBelow(n, c, l, d);
        }
      }
    }
  }

  /** A retained node cannot be had. */
  ghost predicate Wanting(g: Graph, f: Flags) {
    exists u :: IsRoot(f, u) && InGraph(g, u) && !Obtainable(g, f, Gray, u)
  }

  predicate InGraph(g: Graph, u: Node) {
    if u.V? then u.x < |g.vars| else u.m < |g.models|
  }

  lemma KeptFiniteExactly(g: Graph, f: Flags, k: Bounded)
    requires GraphOk(g) && ForwardsOk(g) && BackwardsOk(g) && FlagsFit(g, f) && BothLeast(StartNet(g, f), k)
    ensures KeptFinite(k, f) <==> !Wanting(g, f)
  {
    hide GraphOk, ForwardsOk, BackwardsOk, LeastBounds, NetOk, SkipMarked, Obtainable;
    forall u | IsNode(k, u)
      ensures InGraph(g, u) && (GrayOf(k, u).Fin? <==> Obtainable(g, f, Gray, u))
    {
      BoundIffObtainable(g, f, k, Gray, u);
    }
  }

  /** A reason to refuse, in terms of graph and flags: a given variable is skipped, or a retained node cannot be had. */
  lemma RefusesMeans(g: Graph, f: Flags)
    requires GraphOk(g) && ForwardsOk(g) && BackwardsOk(g) && FlagsFit(g, f)
    ensures Refuses(g, f) ==> Clash(f) || Wanting(g, f)
  {
    hide GraphOk, ForwardsOk, BackwardsOk, LeastBounds, NetOk, KeptFinite, SkipMarked, Wanting, Clash;
    if k :| BothLeast(StartNet(g, f), k) && !KeptFinite(k, f) {
      KeptFiniteExactly(g, f, k);
    }
  }

  /** The node that a refusal names is the reason. */
  ghost predicate Blames(g: Graph, f: Flags, u: Node) {
    || (u.V? && u.x < |f.v| && f.v[u.x].given && f.v[u.x].skip)
    || (!Clash(f) && IsRoot(f, u) && InGraph(g, u) && !Obtainable(g, f, Gray, u))
  }

  lemma RefusedBlames(g: Graph, f: Flags, u: Node)
    requires GraphOk(g) && ForwardsOk(g) && BackwardsOk(g) && FlagsFit(g, f) && ParamsSimple(g) && Refused(g, f, u)
    ensures Blames(g, f, u)
  {
    hide GraphOk, ForwardsOk, BackwardsOk, LeastBounds, NetOk, SkipMarked, Obtainable, Refused, ParamsSimple;
    RefusedNode(g, f, u);
    if !(u.V? && u.x < |f.v| && f.v[u.x].given && f.v[u.x].skip) {
      var k :| BothLeast(StartNet(g, f), k) && IsNode(k, u) && GrayOf(k, u).Inf?;
      BoundIffObtainable(g, f, k, Gray, u);
    }
  }

  /** A run that succeeds has none. */
  lemma PrunedMeans(g: Graph, f: Flags, k: Bounded, f': Flags)
    requires GraphOk(g) && ForwardsOk(g) && BackwardsOk(g) && FlagsFit(g, f) && Pruned(g, f, k, f')
    ensures !Clash(f) && !Wanting(g, f)
  {
    hide GraphOk, ForwardsOk, BackwardsOk, BothLeast, KeptFinite, SkipMarked, Wanting, Clash, Pruned, BoundedOk;
    PrunedLeast(g, f, k, f');
    KeptFiniteExactly(g, f, k);
  }

  /** So a variable that some available model returns from given variables alone is never wanting. */
  lemma FromGiven(g: Graph, f: Flags, x: nat, m: nat, j: nat)
    requires Available(g, f, m) && j < |g.models[m].rets| && g.models[m].rets[j].idx == x
    requires forall i :: 0 <= i < |g.models[m].params| ==>
        g.models[m].params[i].idx < |f.v| && f.v[g.models[m].params[i].idx].given
    ensures Obtainable(g, f, Gray, V(x)) && Obtainable(g, f, Gray, M(m))
  {
    var d := By(m, seq(|g.models[m].params|, _ => Free));
    assert ObtainsModel(g, f, Gray, d);
    assert Obtains(g, f, Gray, x, d);
  }
}
