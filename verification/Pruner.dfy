/** The pruner of fhk: two-colour propagation of cost bounds, and selection of what can be part of an optimum. */
module Pruner {
  import opened Costs
  import opened Graphs
  import opened Heaps
  import opened Bounds
  import opened Fronts
  import opened Selection

  /** A given variable needs no model; a skipped one takes its models, and those that need it, with it. */
  ghost predicate SkipsModel(g: Graph, f: VarFlags, x: nat, m: nat)
    requires x < |g.vars|
  {
    (f.given && HasEdge(g.vars[x].models, m))
        || (f.skip && (HasEdge(g.vars[x].models, m) || HasEdge(g.vars[x].fwds, m)))
  }

  ghost predicate SkipMarked(g: Graph, f: Flags, m: nat)
    requires |f.v| == |g.vars| && m < |f.m|
  {
    f.m[m].skip || exists x: nat :: x < |g.vars| && SkipsModel(g, f.v[x], x, m)
  }

  /** The net that bounds are computed on, from the caller's flags. */
  ghost function StartNet(g: Graph, f: Flags): Net
    requires |f.v| == |g.vars|
  {
    Net(g, seq(|f.v|, x requires 0 <= x < |f.v| => f.v[x].given), seq(|f.v|, x requires 0 <= x < |f.v| => f.v[x].skip),
        seq(|f.m|, m requires 0 <= m < |f.m| => SkipMarked(g, f, m)))
  }

  /** The net that the present flags describe. */
  function NetOf(g: Graph, f: Flags): Net {
    Net(g, seq(|f.v|, x requires 0 <= x < |f.v| => f.v[x].given), seq(|f.v|, x requires 0 <= x < |f.v| => f.v[x].skip),
        seq(|f.m|, m requires 0 <= m < |f.m| => f.m[m].skip))
  }

  predicate FlagsFit(g: Graph, f: Flags) {
    |f.v| == |g.vars| && |f.m| == |g.models|
  }

  lemma {:induction false} CountHasEdge(es: seq<Edge>, j: nat, i: nat, c: Color)
    requires j <= |es|
    ensures CountTo(es, j, i, c) > 0 ==> HasEdge(es, i)
    ensures (exists k :: j <= k < |es| && es[k].idx == i && Needed(c, es[k])) ==> CountTo(es, j, i, c) > 0
    decreases |es| - j
  {
    if j < |es| {
      CountHasEdge(es, j + 1, i, c);
    }
  }

  /** Models that need or return skipped variables are skipped. */
  lemma StartNetOk(g: Graph, f: Flags)
    requires GraphOk(g) && ForwardsOk(g) && BackwardsOk(g) && FlagsFit(g, f)
    ensures NetOk(StartNet(g, f))
  {
    var n := StartNet(g, f);
    forall m, j | 0 <= m < |g.models| && !n.skipM[m] && 0 <= j < |g.models[m].params|
      ensures !n.skipV[g.models[m].params[j].idx]
    {
      SkippedParam(g, f, m, j);
    }
    forall m, j | 0 <= m < |g.models| && !n.skipM[m] && 0 <= j < |g.models[m].rets|
      ensures !n.skipV[g.models[m].rets[j].idx]
    {
      var x := g.models[m].rets[j].idx;
      SkipWitness(g, f, x, m);
    }
  }

  /** The caller lets `m` be used, it returns nothing that is given or skipped, and takes nothing that is skipped. */
  predicate Available(g: Graph, f: Flags, m: nat) {
    && m < |g.models| && m < |f.m| && !f.m[m].skip
    && (forall j :: 0 <= j < |g.models[m].rets| && g.models[m].rets[j].idx < |f.v| ==>
        !f.v[g.models[m].rets[j].idx].given && !f.v[g.models[m].rets[j].idx].skip)
    && (forall j :: 0 <= j < |g.models[m].params| && g.models[m].params[j].idx < |f.v| ==>
        !f.v[g.models[m].params[j].idx].skip)
  }

  /** The models that bounds are computed without, seen from their own edges. */
  lemma SkipsExactly(g: Graph, f: Flags, m: nat)
    requires GraphOk(g) && ForwardsOk(g) && BackwardsOk(g) && FlagsFit(g, f) && m < |g.models|
    ensures StartNet(g, f).skipM[m] <==> !Available(g, f, m)
  {
    if SkipMarked(g, f, m) && !f.m[m].skip {
      var x: nat :| x < |g.vars| && SkipsModel(g, f.v[x], x, m);
      SkipReason(g, f, m, x);
    }
    if !SkipMarked(g, f, m) {
      forall j | 0 <= j < |g.models[m].params|
        ensures g.models[m].params[j].idx < |g.vars| && !f.v[g.models[m].params[j].idx].skip
      {
        SkippedParam(g, f, m, j);
      }
      forall j | 0 <= j < |g.models[m].rets|
        ensures !f.v[g.models[m].rets[j].idx].given && !f.v[g.models[m].rets[j].idx].skip
      {
        SkipWitness(g, f, g.models[m].rets[j].idx, m);
      }
    }
  }

  lemma SkipReason(g: Graph, f: Flags, m: nat, x: nat)
    requires GraphOk(g) && ForwardsOk(g) && BackwardsOk(g) && FlagsFit(g, f) && m < |g.models|
    requires x < |g.vars| && SkipsModel(g, f.v[x], x, m)
    ensures !Available(g, f, m)
  {
    if HasEdge(g.vars[x].models, m) && (f.v[x].given || f.v[x].skip) {
      var i :| 0 <= i < |g.vars[x].models| && g.vars[x].models[i].idx == m;
      assert HasEdge(g.models[m].rets, x);
      var j :| 0 <= j < |g.models[m].rets| && g.models[m].rets[j].idx == x;
    } else {
      hide GraphOk;
      CountHasEdge(g.vars[x].fwds, 0, m, Black);
      CountHasEdge(g.models[m].params, 0, x, Black);
      assert CountTo(g.vars[x].fwds, 0, m, Black) == CountTo(g.models[m].params, 0, x, Black);
      var j :| 0 <= j < |g.models[m].params| && g.models[m].params[j].idx == x;
    }
  }

  lemma SkippedParam(g: Graph, f: Flags, m: nat, j: nat)
    requires GraphOk(g) && ForwardsOk(g) && FlagsFit(g, f) && m < |g.models| && j < |g.models[m].params|
    requires !SkipMarked(g, f, m)
    ensures g.models[m].params[j].idx < |g.vars| && !f.v[g.models[m].params[j].idx].skip
  {
    assert ModelOk(g, g.models[m]);
    var x := g.models[m].params[j].idx;
    hide GraphOk, HasEdge;
    CountHasEdge(g.models[m].params, 0, x, Black);
    CountHasEdge(g.vars[x].fwds, 0, m, Black);
    assert CountTo(g.vars[x].fwds, 0, m, Black) == CountTo(g.models[m].params, 0, x, Black);
    SkipWitness(g, f, x, m);
  }

  lemma SkipWitness(g: Graph, f: Flags, x: nat, m: nat)
    requires FlagsFit(g, f) && x < |g.vars| && m < |f.m|
    ensures SkipsModel(g, f.v[x], x, m) ==> SkipMarked(g, f, m)
  {
  }

  /** The queue holds the given variables below `k`, at no cost in both colours. */
  ghost predicate GivenQueued(n: Net, h: multiset<HNode>, k: nat) {
    k <= |n.given| && forall q :: q in h <==> q.cost == 0.0 && q.xi < k && n.given[q.xi]
  }

  lemma NoneQueued(n: Net)
    ensures GivenQueued(n, multiset{}, 0)
  {
  }

  lemma NextQueued(n: Net, h: multiset<HNode>, k: nat)
    requires GivenQueued(n, h, k) && k < |n.given|
    ensures GivenQueued(n, if n.given[k] then h + multiset{HNode(0.0, Gray, k)} + multiset{HNode(0.0, Black, k)}
        else h, k + 1)
  {
    if n.given[k] {
      var h' := h + multiset{HNode(0.0, Gray, k)} + multiset{HNode(0.0, Black, k)};
      forall q: HNode
        ensures q in h' <==> q.cost == 0.0 && q.xi < k + 1 && n.given[q.xi]
      {
        assert q == HNode(q.cost, if q.color.Gray? then Gray else Black, q.xi);
      }
    }
  }

  /** A given variable must not be skipped as well. */
  ghost predicate Clash(f: Flags) {
    exists x :: 0 <= x < |f.v| && f.v[x].given && f.v[x].skip
  }

  /** A successful run: `k` holds the least bounds of both colours, `f'` the selection. */
  ghost predicate Pruned(g: Graph, f: Flags, k: Bounded, f': Flags)
    requires GraphOk(g) && ForwardsOk(g) && BackwardsOk(g) && FlagsFit(g, f)
  {
    StartNetOk(g, f);
    && !Clash(f) && k.g == g && BoundedOk(k)
    && LeastBounds(StartNet(g, f), Gray, k.gray) && LeastBounds(StartNet(g, f), Black, k.black)
    && KeptFinite(k, f) && SelectedExactly(k, f, f')
  }

  /** The retained nodes lead to `u`, which has no gray bound. */
  ghost predicate Unreachable(g: Graph, f: Flags, k: Bounded, u: Node)
    requires GraphOk(g) && ForwardsOk(g) && BackwardsOk(g) && FlagsFit(g, f)
  {
    StartNetOk(g, f);
    && k.g == g && BoundedOk(k)
    && LeastBounds(StartNet(g, f), Gray, k.gray) && LeastBounds(StartNet(g, f), Black, k.black)
    && IsNode(k, u) && GrayOf(k, u).Inf? && RootLeads(k, f, u) && (IsRoot(f, u) || FineLeads(k, f, u))
  }

  /** A failed run: a given variable is skipped, or a retained node has no gray bound, or something that retained nodes
      with gray bounds lead to has none. */
  ghost predicate Refused(g: Graph, f: Flags, u: Node)
    requires GraphOk(g) && ForwardsOk(g) && BackwardsOk(g) && FlagsFit(g, f)
  {
    StartNetOk(g, f);
    || (u.V? && u.x < |f.v| && f.v[u.x].given && f.v[u.x].skip)
    || (!Clash(f) && exists k: Bounded :: Unreachable(g, f, k, u))
  }

  lemma {:induction false} SkippedInfinite(n: Net, l: Limits)
    requires NetOk(n) && LeastBounds(n, Gray, l)
    ensures forall x :: 0 <= x < |n.g.vars| && n.skipV[x] && !n.given[x] ==> l.v[x].Inf?
    ensures forall m :: 0 <= m < |n.g.models| && n.skipM[m] ==> l.m[m].Inf?
  {
    forall x | 0 <= x < |n.g.vars| && n.skipV[x] && !n.given[x]
      ensures l.v[x].Inf?
    {
      if l.v[x].Fin? {
        var d :| Derives(n, Gray, x, d) && CostOf(n, Gray, d) == l.v[x].r;
        SkippedUnderivable(n, x, d);
      }
    }
  }

  lemma SkippedUnderivable(n: Net, x: nat, d: Deriv)
    requires NetOk(n) && x < |n.g.vars| && n.skipV[x] && !n.given[x]
    ensures !Derives(n, Gray, x, d)
  {
    hide GraphOk, ForwardsOk, BackwardsOk;
  }

  /** After marking, exactly the nodes without a gray bound are flagged as skipped. */
  lemma RunFacts(g: Graph, f: Flags, n: Net, k: Bounded, f1: Flags, f2: Flags)
    requires GraphOk(g) && ForwardsOk(g) && BackwardsOk(g) && FlagsFit(g, f) && n == StartNet(g, f) && NetOk(n)
    requires k.g == g
    requires LeastBounds(n, Gray, k.gray) && LeastBounds(n, Black, k.black) && !FlagsClash(n)
    requires f1.v == f.v && |f1.m| == |f.m| && NetOf(g, f1) == n && FlagsFit(g, f2)
    requires forall m :: 0 <= m < |f.m| ==> f1.m[m] == f.m[m].(skip := f1.m[m].skip)
    requires BoundedOk(k)
    requires forall x :: 0 <= x < |g.vars| ==> f2.v[x] == f1.v[x].(skip := f1.v[x].skip || k.gray.v[x].Inf?)
    requires forall m :: 0 <= m < |g.models| ==> f2.m[m] == f1.m[m].(skip := f1.m[m].skip || k.gray.m[m].Inf?)
    requires Unselects(f)
    ensures SkipsInfinite(k, f2) && Unselects(f2)
    ensures forall u :: IsRoot(f2, u) <==> IsRoot(f, u)
    ensures !Clash(f)
  {
    hide GraphOk, ForwardsOk, BackwardsOk, LeastBounds, SkipMarked;
    SkippedInfinite(n, k.gray);
    forall x | 0 <= x < |g.vars|
      ensures n.given[x] == f.v[x].given && n.skipV[x] == f.v[x].skip && !(f.v[x].given && f.v[x].skip)
    {
    }
    forall m | 0 <= m < |g.models|
      ensures n.skipM[m] == f1.m[m].skip
    {
      assert NetOf(g, f1).skipM[m] == f1.m[m].skip;
    }
  }

  /** Selection only depends on which nodes are roots. */
  lemma SameRoots(g: Graph, f: Flags, n: Net, k: Bounded, f2: Flags, f': Flags, r: PruneResult)
    requires GraphOk(g) && ForwardsOk(g) && BackwardsOk(g) && FlagsFit(g, f) && n == StartNet(g, f) && NetOk(n)
    requires k.g == g
    requires LeastBounds(n, Gray, k.gray) && LeastBounds(n, Black, k.black) && BoundedOk(k) && !Clash(f)
    requires forall u :: IsRoot(f2, u) <==> IsRoot(f, u)
    requires r.PruneOk? ==> SelectedExactly(k, f2, f') && KeptFinite(k, f2)
    requires r.NoChain? ==> IsNode(k, r.at) && GrayOf(k, r.at).Inf? && RootLeads(k, f2, r.at)
    requires r.NoChain? ==> IsRoot(f2, r.at) || FineLeads(k, f2, r.at)
    ensures r.PruneOk? ==> Pruned(g, f, k, f')
    ensures r.NoChain? ==> Refused(g, f, r.at)
  {
    hide GraphOk, ForwardsOk, BackwardsOk, LeastBounds, SkipMarked, NetOk, BoundedOk, Leads, Returns;
    if r.NoChain? {
      StillRefused(g, f, k, f2, r.at);
    } else {
      forall u
        ensures RootLeads(k, f2, u) <==> RootLeads(k, f, u)
      {
        if RootLeads(k, f2, u) {
          var q :| IsRoot(f2, q) && Leads(k, q, u);
          assert IsRoot(f, q);
        }
        if RootLeads(k, f, u) {
          var q :| IsRoot(f, q) && Leads(k, q, u);
          assert IsRoot(f2, q);
        }
      }
    }
  }

  lemma StillRefused(g: Graph, f: Flags, k: Bounded, f2: Flags, u: Node)
    requires GraphOk(g) && ForwardsOk(g) && BackwardsOk(g) && FlagsFit(g, f) && NetOk(StartNet(g, f)) && k.g == g
    requires LeastBounds(StartNet(g, f), Gray, k.gray) && LeastBounds(StartNet(g, f), Black, k.black)
    requires BoundedOk(k) && !Clash(f)
    requires forall u :: IsRoot(f2, u) <==> IsRoot(f, u)
    requires IsNode(k, u) && GrayOf(k, u).Inf? && RootLeads(k, f2, u) && (IsRoot(f2, u) || FineLeads(k, f2, u))
    ensures Refused(g, f, u)
  {
    hide GraphOk, ForwardsOk, BackwardsOk, LeastBounds, SkipMarked, NetOk, BoundedOk, Leads;
    var q :| IsRoot(f2, q) && Leads(k, q, u);
    assert IsRoot(f, q);
    if !IsRoot(f2, u) {
      var r :| IsRoot(f2, r) && IsNode(k, r) && GrayOf(k, r).Fin? && Leads(k, r, u);
      assert IsRoot(f, r);
    }
    assert Unreachable(g, f, k, u);
  }

  function ClosedMark(k: Mark): Mark {
    if k.seen then k else k.(bound := Inf)
  }

  function ClosedTally(t: Tally): Tally {
    if t.seen then t else t.(bound := Inf)
  }

  function BoundsOf(v: seq<Mark>, ts: seq<Tally>): Limits {
    Limits(seq(|v|, x requires 0 <= x < |v| => v[x].bound), seq(|ts|, m requires 0 <= m < |ts| => ts[m].bound))
  }

  /** What the caller gets. */
  datatype PruneResult = PruneOk | NoChain(at: Node)

  /** Colour bits, bounds and `p_miss` counters of one colour. */
  class Front {
    const c: Color
    const v: array<Mark>
    const m: array<Tally>

    constructor (g: Graph, c: Color)
      ensures this.c == c && fresh(v) && fresh(m)
      ensures v[..] == seq(|g.vars|, _ => Mark(false, Fin(0.0)))
      ensures m[..] == seq(|g.models|, _ => Tally(false, Fin(0.0), 0))
    {
      this.c := c;
      v := new Mark[|g.vars|](_ => Mark(false, Fin(0.0)));
      m := new Tally[|g.models|](_ => Tally(false, Fin(0.0), 0));
    }

    /** `prune_init_mstate` for one colour. */
    method InitTallies(n: Net)
      requires NetOk(n) && v.Length == |n.g.vars| && m.Length == |n.g.models|
      requires forall x :: 0 <= x < v.Length ==> Fresh(v[x])
      requires forall k :: 0 <= k < m.Length ==> !m[k].seen && m[k].bound == Fin(0.0)
      modifies m
      ensures forall k :: 0 <= k < m.Length ==> m[k] == Tally(false, Fin(0.0), Missing(n, c, v[..], k, 0))
    {
      hide NetOk, Missing;
      for k := 0 to m.Length
        invariant forall i :: 0 <= i < k ==> m[i] == Tally(false, Fin(0.0), Missing(n, c, v[..], i, 0))
        invariant forall i :: k <= i < m.Length ==> !m[i].seen && m[i].bound == Fin(0.0)
      {
        var miss := CountMissing(n, k);
        m[k] := m[k].(miss := miss);
      }
    }

    method CountMissing(n: Net, k: nat) returns (miss: nat)
      requires NetOk(n) && v.Length == |n.g.vars| && k < |n.g.models| && forall x :: 0 <= x < v.Length ==> Fresh(v[x])
      ensures miss == Missing(n, c, v[..], k, 0)
    {
      var ps := n.g.models[k].params;
      if c.Black? {
        FreshSums(n, c, v[..], k, 0);
        miss := |ps|;
      } else {
        miss := 0;
        for j := 0 to |ps|
          invariant miss + Missing(n, c, v[..], k, j) == Missing(n, c, v[..], k, 0)
        {
          ParamVar(n, k, j);
          if !ps[j].via.User? {
            miss := miss + 1;
          }
        }
      }
    }

    ghost predicate DuringOk(n: Net, h: Heap, lo: real, w: Telling, but: set<nat>)
      reads v, m, h, h.nodes
    {
      h.Valid() && During(n, c, v[..], m[..], h.Contents(), lo, w, but)
    }

    /** The invariant of this colour between two steps. */
    ghost predicate Ok(n: Net, h: Heap, lo: real)
      reads v, m, h, h.nodes
    {
      DuringOk(n, h, lo, NOTHING, {})
    }

    /** `prune_bound_model`: all needed parameters of `k` have bounds. */
    method BoundModel(n: Net, k: nat, h: Heap, ghost lo: real, ghost w: Telling, ghost but: set<nat>)
      requires DuringOk(n, h, lo, w, but) && NetOk(n) && v.Length == |n.g.vars| && k < |n.g.models|
      requires k < |n.skipM| && (n.skipM[k] || Ready(n, c, v[..], m[..], lo, w, k))
      modifies m, h, h.nodes
      ensures DuringOk(n, h, lo, w, but - {k})
      ensures h.nodes == old(h.nodes) || fresh(h.nodes)
      ensures Kept(c, old(h.Contents()), h.Contents())
      ensures forall i :: 0 <= i < m.Length && i != k ==> m[i] == old(m[i])
    {
      hide During, NetOk, Ready, TallyOk, Penalty, SeenSum, Missing, Queued, Total;
      DuringSizes(n, c, v[..], m[..], h.Contents(), lo, w, but);
      if n.skipM[k] {
        DropSkipped(n, c, v[..], m[..], h.Contents(), lo, w, but, k);
        return;
      }
      var cost := ModelCost(n, k, lo, w);
      QueueReturns(n, k, cost, h, lo, w, but);
      MarkModel(n, c, v[..], m[..], h.Contents(), lo, w, but, k);
      ghost var was := m[..];
      m[k] := Tally(true, cost, 0);
      assert m[..] == was[k := Tally(true, cost, 0)];
    }

    /** The cost bound of `k`: its summed parameters, and the penalties that count. */
    method ModelCost(n: Net, k: nat, ghost lo: real, ghost w: Telling) returns (cost: Cost)
      requires NetOk(n) && v.Length == |n.g.vars| && k < |n.g.models| && Ready(n, c, v[..], m[..], lo, w, k)
      ensures cost == Total(n, c, v[..], k)
    {
      hide NetOk, SeenSum, Missing, Ready, TallyOk;
      ReadySum(n, c, v[..], m[..], lo, w, k);
      ReadySize(n, c, v[..], m[..], lo, w, k);
      var s := m[k].bound;
      for e := 0 to |n.g.models[k].checks|
        invariant s == Fin(SeenSum(n, c, v[..], k, 0) + Penalty(n, c, k, e))
      {
        CheckFine(n, k, e);
        if c.Black? || n.skipV[Checked(n.g, k, e)] {
          s := Add(s, Fin(n.g.models[k].checks[e].penalty));
        }
      }
      cost := Costf(n.g.models[k].k, n.g.models[k].c, s);
    }

    /** Queues the bound of `k` for the variables it returns. */
    method QueueReturns(n: Net, k: nat, cost: Cost, h: Heap, ghost lo: real, ghost w: Telling, ghost but: set<nat>)
      requires DuringOk(n, h, lo, w, but) && NetOk(n) && v.Length == |n.g.vars| && k < |n.g.models|
      requires Ready(n, c, v[..], m[..], lo, w, k) && cost == Total(n, c, v[..], k)
      modifies h, h.nodes
      ensures DuringOk(n, h, lo, w, but) && Queued(n, c, h.Contents(), k, cost, |n.g.models[k].rets|)
      ensures h.nodes == old(h.nodes) || fresh(h.nodes)
      ensures Kept(c, old(h.Contents()), h.Contents())
    {
      hide During, NetOk, Ready, Total, Kept, Heap.Contents, Heap.Valid;
      ReadyFin(n, c, v[..], m[..], h.Contents(), lo, w, but, k);
      KeptSame(c, h.Contents());
      for j := 0 to |n.g.models[k].rets|
        invariant DuringOk(n, h, lo, w, but) && Queued(n, c, h.Contents(), k, cost, j)
        invariant h.nodes == old(h.nodes) || fresh(h.nodes)
        invariant Kept(c, old(h.Contents()), h.Contents())
      {
        QueueReturn(n, c, v[..], m[..], h.Contents(), lo, w, but, k, j);
        if Usable(c, n.g.models[k].rets[j]) {
          KeptInsert(HNode(cost.r, c, n.g.models[k].rets[j].idx), h.Contents());
          KeptTrans(c, old(h.Contents()), h.Contents(),
              h.Contents() + multiset{HNode(cost.r, c, n.g.models[k].rets[j].idx)});
          h.Insert(HNode(cost.r, c, n.g.models[k].rets[j].idx));
        }
      }
    }

    /** `prune_bound_var`: the least queued bound becomes the bound of `x`, unless it has one. */
    method BoundVar(n: Net, x: nat, cost: real, h: Heap, ghost lo: real)
      requires h.Valid() && FrontOk(n, c, v[..], m[..], h.Contents() + multiset{HNode(cost, c, x)}, lo)
      requires forall q :: q in h.Contents() && q.color == c ==> cost <= q.cost
      modifies v, m, h, h.nodes
      ensures Ok(n, h, cost)
      ensures h.nodes == old(h.nodes) || fresh(h.nodes)
      ensures Kept(c, old(h.Contents()), h.Contents())
      ensures Unseen(v[..]) < old(Unseen(v[..])) || (Unseen(v[..]) == old(Unseen(v[..])) && h.pos == old(h.pos))
    {
      hide During, NetOk, Heap.Contents, Heap.Valid, Unseen;
      DuringSizes(n, c, v[..], m[..], h.Contents() + multiset{HNode(cost, c, x)}, lo, NOTHING, {});
      MarkVar(n, c, v[..], m[..], h.Contents(), lo, x, cost);
      if v[x].seen {
        return;
      }
      ghost var was := v[..];
      UnseenLess(was, x, Fin(cost));
      v[x] := Mark(true, Fin(cost));
      assert v[..] == was[x := Mark(true, Fin(cost))];
      DuringSizes(n, c, v[..], m[..], h.Contents(), cost, Telling(n.g.vars[x].fwds, 0, cost), {});
      TellAll(n, x, cost, h);
    }

    /** Tells all models that need `x` about its bound. */
    method TellAll(n: Net, x: nat, cost: real, h: Heap)
      requires x < v.Length == |n.g.vars| && v[x] == Mark(true, Fin(cost))
      requires DuringOk(n, h, cost, Telling(n.g.vars[x].fwds, 0, cost), {})
      modifies m, h, h.nodes
      ensures Ok(n, h, cost)
      ensures h.nodes == old(h.nodes) || fresh(h.nodes)
      ensures Kept(c, old(h.Contents()), h.Contents())
    {
      hide During, NetOk, Kept, Heap.Contents, Heap.Valid;
      var es := n.g.vars[x].fwds;
      KeptSame(c, h.Contents());
      for i := 0 to |es|
        invariant DuringOk(n, h, cost, Telling(es, i, cost), {})
        invariant h.nodes == old(h.nodes) || fresh(h.nodes)
        invariant Kept(c, old(h.Contents()), h.Contents())
      {
        if Needed(c, es[i]) {
          ghost var q := h.Contents();
          TellOne(n, x, cost, i, h);
          KeptTrans(c, old(h.Contents()), q, h.Contents());
        } else {
          TellSkip(n, c, v[..], m[..], h.Contents(), cost, Telling(es, i, cost));
        }
      }
      TellEnd(n, c, v[..], m[..], h.Contents(), cost, Telling(es, |es|, cost));
    }

    method TellOne(n: Net, x: nat, cost: real, i: nat, h: Heap)
      requires x < v.Length == |n.g.vars| && v[x] == Mark(true, Fin(cost)) && i < |n.g.vars[x].fwds|
      requires DuringOk(n, h, cost, Telling(n.g.vars[x].fwds, i, cost), {}) && Needed(c, n.g.vars[x].fwds[i])
      modifies m, h, h.nodes
      ensures DuringOk(n, h, cost, Telling(n.g.vars[x].fwds, i + 1, cost), {})
      ensures h.nodes == old(h.nodes) || fresh(h.nodes)
      ensures Kept(c, old(h.Contents()), h.Contents())
    {
      hide During, NetOk, Heap.Contents, Heap.Valid, Ready;
      ghost var w := Telling(n.g.vars[x].fwds, i, cost);
      Tell(n, c, v[..], m[..], h.Contents(), cost, w);
      DuringSizes(n, c, v[..], m[..], h.Contents(), cost, w, {});
      var k := n.g.vars[x].fwds[i].idx;
      ghost var was := m[..];
      m[k] := Told(m[k], cost);
      assert m[..] == was[k := Told(was[k], cost)];
      if m[k].miss == 0 {
        if !n.skipM[k] {
          TellReady(n, c, v[..], m[..], h.Contents(), cost, w, x);
        }
        DuringNet(n, c, v[..], m[..], h.Contents(), cost, w.(i := i + 1), {k});
        BoundModel(n, k, h, cost, w.(i := i + 1), {k});
        assert {k} - {k} == {};
      }
    }
  }

  class Prune {
    const g: Graph
    const gray: Front
    const black: Front
    const heap: Heap
    const flagV: array<VarFlags>
    const flagM: array<ModFlags>

    /** A pruner whose flags the caller has set: given, skipped and retained nodes. */
    constructor (g: Graph, f: Flags)
      requires GraphOk(g) && ForwardsOk(g) && BackwardsOk(g) && FlagsFit(g, f)
      ensures this.g == g && Now() == f && Idle()
      ensures fresh(gray) && fresh(black) && fresh(heap) && fresh(flagV) && fresh(flagM) && fresh(heap.nodes)
      ensures fresh(gray.v) && fresh(gray.m) && fresh(black.v) && fresh(black.m)
    {
      this.g := g;
      gray := new Front(g, Gray);
      black := new Front(g, Black);
      heap := new Heap();
      flagV := new VarFlags[|f.v|](x requires 0 <= x < |f.v| => f.v[x]);
      flagM := new ModFlags[|f.m|](m requires 0 <= m < |f.m| => f.m[m]);
      new;
      assert flagV[..] == f.v && flagM[..] == f.m;
    }

    /** The parts do not overlap and fit the graph. */
    ghost predicate Parts()
    {
      && GraphOk(g) && ForwardsOk(g) && BackwardsOk(g)
      && gray.c == Gray && black.c == Black && gray != black && gray.v != black.v && gray.m != black.m
      && gray.v.Length == black.v.Length == flagV.Length == |g.vars|
      && gray.m.Length == black.m.Length == flagM.Length == |g.models|
    }

    function Now(): Flags
      reads flagV, flagM
    {
      Flags(flagV[..], flagM[..])
    }

    /** Nothing has been bounded yet. */
    ghost predicate Idle()
      reads heap, heap.nodes, gray.v, gray.m, black.v, black.m
    {
      && Parts() && heap.Valid() && heap.Contents() == multiset{}
      && (forall x :: 0 <= x < |g.vars| ==> Fresh(gray.v[x]) && Fresh(black.v[x]))
      && (forall m :: 0 <= m < |g.models| ==>
          gray.m[m] == Tally(false, Fin(0.0), 0) && black.m[m] == Tally(false, Fin(0.0), 0))
    }

    /** `prune_mark_given`, `prune_mark_skips`: flags all models that must not be used. */
    method MarkModels()
      requires Parts()
      modifies flagM
      ensures NetOf(g, Now()) == StartNet(g, old(Now()))
      ensures forall m: nat :: m < flagM.Length ==> (flagM[m].skip <==> !Available(g, old(Now()), m))
      ensures forall m :: 0 <= m < flagM.Length ==> flagM[m] == old(flagM[m]).(skip := flagM[m].skip)
    {
      ghost var f := Now();
      for x := 0 to |g.vars|
        invariant forall m :: 0 <= m < flagM.Length ==> flagM[m] == f.m[m].(skip := flagM[m].skip)
        invariant forall m :: 0 <= m < flagM.Length ==> (flagM[m].skip <==> f.m[m].skip || SkippedBy(f, x, 0, m))
      {
        if flagV[x].given {
          SkipEdges(g.vars[x].models);
        }
      }
      for x := 0 to |g.vars|
        invariant forall m :: 0 <= m < flagM.Length ==> flagM[m] == f.m[m].(skip := flagM[m].skip)
        invariant forall m :: 0 <= m < flagM.Length ==> (flagM[m].skip <==> f.m[m].skip || SkippedBy(f, |g.vars|, x, m))
      {
        if flagV[x].skip {
          SkipEdges(g.vars[x].models);
          SkipEdges(g.vars[x].fwds);
        }
      }
      forall m | 0 <= m < flagM.Length
        ensures flagM[m].skip <==> SkipMarked(g, f, m)
      {
        SkippedByAll(f, m);
      }
      assert NetOf(g, Now()).skipM == StartNet(g, f).skipM;
      forall m: nat | m < flagM.Length
        ensures flagM[m].skip <==> !Available(g, f, m)
      {
        SkipsExactly(g, f, m);
        assert flagM[m].skip == NetOf(g, Now()).skipM[m];
      }
    }

    /** Given variables below `x` or skipped ones below `y` take `m` with them. */
    ghost predicate SkippedBy(f: Flags, x: nat, y: nat, m: nat)
      requires |f.v| == |g.vars| && x <= |g.vars| && y <= |g.vars|
    {
      || (exists i: nat :: i < x && f.v[i].given && HasEdge(g.vars[i].models, m))
      || (exists i: nat :: i < y && f.v[i].skip && (HasEdge(g.vars[i].models, m) || HasEdge(g.vars[i].fwds, m)))
    }

    lemma SkippedByAll(f: Flags, m: nat)
      requires FlagsFit(g, f) && m < |f.m|
      ensures SkipMarked(g, f, m) <==> f.m[m].skip || SkippedBy(f, |g.vars|, |g.vars|, m)
    {
      hide HasEdge;
      if x: nat :| x < |g.vars| && f.v[x].given && HasEdge(g.vars[x].models, m) {
        assert SkipsModel(g, f.v[x], x, m);
      }
      if x: nat :| x < |g.vars| && f.v[x].skip && (HasEdge(g.vars[x].models, m) || HasEdge(g.vars[x].fwds, m)) {
        assert SkipsModel(g, f.v[x], x, m);
      }
    }

    /** Flags the models behind `es`. */
    method SkipEdges(es: seq<Edge>)
      requires forall i :: 0 <= i < |es| ==> es[i].idx < flagM.Length
      modifies flagM
      ensures forall m: nat :: m < flagM.Length ==>
          flagM[m] == old(flagM[m]).(skip := old(flagM[m].skip) || HasEdge(es, m))
    {
      for j := 0 to |es|
        invariant forall m: nat :: m < flagM.Length ==> flagM[m] == old(flagM[m]).(skip := flagM[m].skip)
        invariant forall m: nat :: m < flagM.Length ==>
            (flagM[m].skip <==> old(flagM[m].skip) || exists i :: 0 <= i < j && es[i].idx == m)
      {
        flagM[es[j].idx] := flagM[es[j].idx].(skip := true);
      }
    }

    ghost predicate BothDuring(n: Net, lo: real, but: set<nat>)
      reads heap, heap.nodes, gray.v, gray.m, black.v, black.m
    {
      Parts() && NetOk(n) && n.g == g && gray.DuringOk(n, heap, lo, NOTHING, but)
          && black.DuringOk(n, heap, lo, NOTHING, but)
    }

    /** `prune_insert_given`: given variables are free in both colours; one that is skipped as well cannot be had. */
    method InsertGiven(n: Net) returns (r: PruneResult)
      requires Parts() && heap.Valid() && heap.Contents() == multiset{} && n == NetOf(g, Now())
      modifies heap, heap.nodes
      ensures heap.nodes == old(heap.nodes) || fresh(heap.nodes)
      ensures r.PruneOk? ==> heap.Valid() && !FlagsClash(n) && GivenQueued(n, heap.Contents(), |g.vars|)
      ensures r.NoChain? ==> r.at.V? && r.at.x < |g.vars| && n.given[r.at.x] && n.skipV[r.at.x]
    {
      hide Heap.Valid, Heap.Contents, GivenQueued;
      NoneQueued(n);
      for x := 0 to |g.vars|
        invariant heap.nodes == old(heap.nodes) || fresh(heap.nodes)
        invariant heap.Valid() && forall i :: 0 <= i < x ==> !(n.given[i] && n.skipV[i])
        invariant GivenQueued(n, heap.Contents(), x)
      {
        NextQueued(n, heap.Contents(), x);
        if flagV[x].given {
          if flagV[x].skip {
            return NoChain(V(x));
          }
          heap.Insert(HNode(0.0, Gray, x));
          heap.Insert(HNode(0.0, Black, x));
        }
      }
      r := PruneOk;
    }

    /** `prune_insert_constmods`: models that need nothing have their bounds at once. */
    method InsertConstmods(n: Net)
      requires BothDuring(n, 0.0, Upto(0, |g.models|))
      requires forall m :: 0 <= m < |g.models| ==> !gray.m[m].seen && !black.m[m].seen
      modifies heap, heap.nodes, gray.m, black.m
      ensures BothDuring(n, 0.0, {})
      ensures heap.nodes == old(heap.nodes) || fresh(heap.nodes)
    {
      hide During, Heap.Valid, Heap.Contents, NetOk;
      for k := 0 to |g.models|
        invariant BothDuring(n, 0.0, Upto(k, |g.models|))
        invariant heap.nodes == old(heap.nodes) || fresh(heap.nodes)
        invariant forall m :: k <= m < |g.models| ==> !gray.m[m].seen && !black.m[m].seen
      {
        InsertConstmod(n, k);
      }
    }

    method InsertConstmod(n: Net, k: nat)
      requires k < |g.models| && BothDuring(n, 0.0, Upto(k, |g.models|))
      requires !gray.m[k].seen && !black.m[k].seen
      modifies heap, heap.nodes, gray.m, black.m
      ensures BothDuring(n, 0.0, Upto(k + 1, |g.models|))
      ensures heap.nodes == old(heap.nodes) || fresh(heap.nodes)
      ensures forall m :: k < m < |g.models| ==> gray.m[m] == old(gray.m[m]) && black.m[m] == old(black.m[m])
    {
      hide During, Heap.Valid, Heap.Contents, NetOk, Kept;
      ghost var but, but' := Upto(k, |g.models|), Upto(k + 1, |g.models|);
      assert but - {k} == but';
      DuringSizes(n, Gray, gray.v[..], gray.m[..], heap.Contents(), 0.0, NOTHING, but);
      ghost var h := heap.Contents();
      if !n.skipM[k] && gray.m[k].miss == 0 {
        ConstReady(n, Gray, gray.v[..], gray.m[..], h, but, k);
        gray.BoundModel(n, k, heap, 0.0, NOTHING, but);
      } else {
        ConstSkip(n, Gray, gray.v[..], gray.m[..], h, but, but', k);
        KeptSame(Gray, h);
      }
      KeptOther(Gray, Black, h, heap.Contents());
      OtherColor(n, Black, black.v[..], black.m[..], h, heap.Contents(), 0.0, NOTHING, but);
      ghost var h2 := heap.Contents();
      if !n.skipM[k] && black.m[k].miss == 0 {
        ConstReady(n, Black, black.v[..], black.m[..], h2, but, k);
        black.BoundModel(n, k, heap, 0.0, NOTHING, but);
      } else {
        ConstSkip(n, Black, black.v[..], black.m[..], h2, but, but', k);
        KeptSame(Black, h2);
      }
      KeptOther(Black, Gray, h2, heap.Contents());
      OtherColor(n, Gray, gray.v[..], gray.m[..], h2, heap.Contents(), 0.0, NOTHING, but');
    }

    /** The invariants of both colours between two steps of the propagation. */
    ghost predicate BothOk(n: Net, lo: real)
      reads heap, heap.nodes, gray.v, gray.m, black.v, black.m
    {
      BothDuring(n, lo, {})
    }

    /** `prune_init_mstate` up to `prune_insert_constmods`. */
    method Begin(n: Net) returns (r: PruneResult)
      requires Idle() && NetOk(n) && n == NetOf(g, Now())
      modifies heap, heap.nodes, gray.m, black.m
      ensures heap.nodes == old(heap.nodes) || fresh(heap.nodes)
      ensures r.PruneOk? ==> BothOk(n, 0.0) && !FlagsClash(n)
      ensures r.NoChain? ==> r.at.V? && r.at.x < |g.vars| && n.given[r.at.x] && n.skipV[r.at.x]
    {
      hide NetOk, Missing, GivenQueued, Heap.Contents, Heap.Valid, During;
      gray.InitTallies(n);
      black.InitTallies(n);
      r := InsertGiven(n);
      if r.PruneOk? {
        StartedBy(n, Gray, gray.v[..], gray.m[..], heap.Contents());
        StartedBy(n, Black, black.v[..], black.m[..], heap.Contents());
        Start(n, Gray, gray.v[..], gray.m[..], heap.Contents());
        Start(n, Black, black.v[..], black.m[..], heap.Contents());
        InsertConstmods(n);
      }
    }

    lemma StartedBy(n: Net, c: Color, v: seq<Mark>, ts: seq<Tally>, h: multiset<HNode>)
      requires NetOk(n) && GivenQueued(n, h, |n.g.vars|) && !FlagsClash(n)
      requires |v| == |n.g.vars| && (forall x :: 0 <= x < |v| ==> Fresh(v[x]))
      requires |ts| == |n.g.models|
      requires (forall m :: 0 <= m < |ts| ==> ts[m] == Tally(false, Fin(0.0), Missing(n, c, v, m, 0)))
      ensures Started(n, c, v, ts, h)
    {
    }

    /** `prune_propagate`: takes the least queued bound until none is left. Bounds are taken in nondecreasing order. */
    method Propagate(n: Net) returns (ghost pops: seq<real>)
      requires BothOk(n, 0.0)
      modifies heap, heap.nodes, gray.v, gray.m, black.v, black.m
      ensures heap.nodes == old(heap.nodes) || fresh(heap.nodes)
      ensures Parts() && LeastBounds(n, Gray, LimitsOf(gray.v[..], gray.m[..]))
      ensures LeastBounds(n, Black, LimitsOf(black.v[..], black.m[..]))
      ensures forall i, j :: 0 <= i < j < |pops| ==> pops[i] <= pops[j]
    {
      hide During, NetOk, Heap.Contents, Heap.Valid, Unseen, LeastBounds;
      ghost var lo := 0.0;
      pops := [];
      while heap.pos > 0
        invariant BothOk(n, lo)
        invariant heap.nodes == old(heap.nodes) || fresh(heap.nodes)
        invariant forall i, j :: 0 <= i < j < |pops| ==> pops[i] <= pops[j]
        invariant forall i :: 0 <= i < |pops| ==> pops[i] <= lo
        decreases Unseen(gray.v[..]) + Unseen(black.v[..]), heap.pos
      {
        var next := PropagateOne(n, lo);
        pops := pops + [next.cost];
        lo := next.cost;
      }
      EmptyHeap();
      EndLeast(n, Gray, gray.v[..], gray.m[..], heap.Contents(), lo);
      EndLeast(n, Black, black.v[..], black.m[..], heap.Contents(), lo);
    }

    lemma EmptyHeap()
      requires heap.Valid() && heap.pos == 0
      ensures heap.Contents() == multiset{}
    {
      assert heap.nodes[..1][1..] == [];
    }

    method PropagateOne(n: Net, ghost lo: real) returns (next: HNode)
      requires BothOk(n, lo) && heap.pos > 0
      modifies heap, heap.nodes, gray.v, gray.m, black.v, black.m
      ensures heap.nodes == old(heap.nodes) || fresh(heap.nodes)
      ensures lo <= next.cost && BothOk(n, next.cost)
      ensures var before, after :=
          old(Unseen(gray.v[..]) + Unseen(black.v[..])), Unseen(gray.v[..]) + Unseen(black.v[..]);
        after < before || (after == before && heap.pos < old(heap.pos))
    {
      hide During, NetOk, Heap.Contents, Heap.Valid, Unseen, Kept, AtMost, Less;
      ghost var h := heap.Contents();
      next := heap.Remove();
      Popped(n, h, next);
      ghost var f := if next.color.Gray? then black else gray;
      OtherColor(n, f.c, f.v[..], f.m[..], h, heap.Contents(), lo, NOTHING, {});
      PoppedLow(n, gray.v[..], gray.m[..], black.v[..], black.m[..], h, lo, next);
      RaiseLow(n, f.c, f.v[..], f.m[..], heap.Contents(), lo, next.cost);
      ghost var h2 := heap.Contents();
      if next.color.Gray? {
        gray.BoundVar(n, next.xi, next.cost, heap, lo);
      } else {
        black.BoundVar(n, next.xi, next.cost, heap, lo);
      }
      KeptOther(next.color, f.c, h2, heap.Contents());
      OtherColor(n, f.c, f.v[..], f.m[..], h2, heap.Contents(), next.cost, NOTHING, {});
    }

    /** Taking the least entry `q` out. */
    lemma Popped(n: Net, h: multiset<HNode>, q: HNode)
      requires q in h && forall o :: o in h ==> AtMost(q, o)
      ensures (h - multiset{q}) + multiset{q} == h
      ensures forall o: HNode :: o in h - multiset{q} ==> q.cost <= o.cost
      ensures forall c: Color :: c != q.color ==> SameOf(c, h, h - multiset{q})
    {
    }

    lemma PoppedLow(n: Net, gv: seq<Mark>, gm: seq<Tally>, bv: seq<Mark>, bm: seq<Tally>, h: multiset<HNode>, lo: real,
        q: HNode)
      requires FrontOk(n, Gray, gv, gm, h, lo) && FrontOk(n, Black, bv, bm, h, lo) && q in h
      ensures lo <= q.cost
    {
      hide MarksOk, TalliesOk, SeenDerived, Complete, Covered, NetOk;
      assert q.color == Gray || q.color == Black;
    }

    /** The bounds as they are stored. */
    ghost function Stored(): Bounded
      reads gray.v, gray.m, black.v, black.m
    {
      Bounded(g, BoundsOf(gray.v[..], gray.m[..]), BoundsOf(black.v[..], black.m[..]))
    }

    /** `fhk_prune_bounds`: what the caller reads afterwards. */
    method Bounds() returns (k: Bounded)
      requires Parts()
      ensures k == Stored()
    {
      k := Bounded(g, BoundsOf(gray.v[..], gray.m[..]), BoundsOf(black.v[..], black.m[..]));
    }

    /** `prune_mark_unreachable`: nodes without a bound get an infinite one, and without a gray one they are skipped. */
    method MarkUnreachable()
      requires Parts()
      modifies gray.v, gray.m, black.v, black.m, flagV, flagM
      ensures Stored() == old(Bounded(g, LimitsOf(gray.v[..], gray.m[..]), LimitsOf(black.v[..], black.m[..])))
      ensures forall x :: 0 <= x < |g.vars| ==>
          flagV[x] == old(flagV[x]).(skip := old(flagV[x].skip) || gray.v[x].bound.Inf?)
      ensures forall m :: 0 <= m < |g.models| ==>
          flagM[m] == old(flagM[m]).(skip := old(flagM[m].skip) || gray.m[m].bound.Inf?)
    {
      CloseModels();
      CloseVars();
      assert Stored().gray.m == old(LimitsOf(gray.v[..], gray.m[..])).m;
      assert Stored().black.m == old(LimitsOf(black.v[..], black.m[..])).m;
      assert Stored().gray.v == old(LimitsOf(gray.v[..], gray.m[..])).v;
      assert Stored().black.v == old(LimitsOf(black.v[..], black.m[..])).v;
    }

    method CloseModels()
      requires Parts()
      modifies gray.m, black.m, flagM
      ensures forall m :: 0 <= m < |g.models| ==>
          gray.m[m] == ClosedTally(old(gray.m[m])) && black.m[m] == ClosedTally(old(black.m[m]))
      ensures forall m :: 0 <= m < |g.models| ==>
          flagM[m] == old(flagM[m]).(skip := old(flagM[m].skip) || gray.m[m].bound.Inf?)
    {
      for k := 0 to |g.models|
        invariant forall m :: 0 <= m < k ==>
            gray.m[m] == ClosedTally(old(gray.m[m])) && black.m[m] == ClosedTally(old(black.m[m]))
        invariant forall m :: 0 <= m < k ==>
            flagM[m] == old(flagM[m]).(skip := old(flagM[m].skip) || gray.m[m].bound.Inf?)
        invariant forall m :: k <= m < |g.models| ==>
            gray.m[m] == old(gray.m[m]) && black.m[m] == old(black.m[m]) && flagM[m] == old(flagM[m])
      {
        if !gray.m[k].seen {
          gray.m[k] := gray.m[k].(bound := Inf);
        }
        if !black.m[k].seen {
          black.m[k] := black.m[k].(bound := Inf);
        }
        if gray.m[k].bound.Inf? {
          flagM[k] := flagM[k].(skip := true);
        }
      }
    }

    method CloseVars()
      requires Parts()
      modifies gray.v, black.v, flagV
      ensures forall x :: 0 <= x < |g.vars| ==>
          gray.v[x] == ClosedMark(old(gray.v[x])) && black.v[x] == ClosedMark(old(black.v[x]))
      ensures forall x :: 0 <= x < |g.vars| ==>
          flagV[x] == old(flagV[x]).(skip := old(flagV[x].skip) || gray.v[x].bound.Inf?)
    {
      for k := 0 to |g.vars|
        invariant forall x :: 0 <= x < k ==>
            gray.v[x] == ClosedMark(old(gray.v[x])) && black.v[x] == ClosedMark(old(black.v[x]))
        invariant forall x :: 0 <= x < k ==>
            flagV[x] == old(flagV[x]).(skip := old(flagV[x].skip) || gray.v[x].bound.Inf?)
        invariant forall x :: k <= x < |g.vars| ==>
            gray.v[x] == old(gray.v[x]) && black.v[x] == old(black.v[x]) && flagV[x] == old(flagV[x])
      {
        if !gray.v[k].seen {
          gray.v[k] := gray.v[k].(bound := Inf);
        }
        if !black.v[k].seen {
          black.v[k] := black.v[k].(bound := Inf);
        }
        if gray.v[k].bound.Inf? {
          flagV[k] := flagV[k].(skip := true);
        }
      }
    }

    /** `prune_select` of a variable: the models that can matter to it. */
    method SelectVar(x: nat)
      requires Parts() && BoundedOk(Stored()) && x < |g.vars| && SkipsInfinite(Stored(), Now())
      modifies flagV, flagM
      ensures IsSel(Now(), V(x)) && Grows(Stored(), old(Now()), Now(), V(x), {})
      decreases Unselected(Now()), 1
    {
      hide BoundedOk, Grows, AllSucc, BitsKept, SkipsInfinite, Unselected, Picked, NeedBeta;
      ghost var k, a := Stored(), Now();
      if flagV[x].selected {
        GrowsNot(k, a, V(x));
        return;
      }
      flagV[x] := flagV[x].(selected := true, select := true);
      assert Now() == SelectIn(a, V(x));
      GrowsFirst(k, a, V(x));
      GrowsFlags(k, a, Now(), V(x), {V(x)});
      var beta := black.v[x].bound;
      var needbeta := Lt(beta, Inf);
      NeedBetaFirst(k, x);
      for i := 0 to |g.vars[x].models|
        invariant Grows(k, a, Now(), V(x), {V(x)}) && IsNew(a, Now(), V(x)) && needbeta == NeedBeta(k, x, i)
        invariant forall j, m :: 0 <= j < i && PickedAt(k, x, j, m) ==> IsSel(Now(), M(m))
      {
        var mi := g.vars[x].models[i].idx;
        assert Picked(k, x, i) == (Lt(gray.m[mi].bound, beta) || (needbeta && black.m[mi].bound == beta)) by {
          PickedBy(k, x, i);
        }
        PickedBy(k, x, i);
        if Lt(gray.m[mi].bound, beta) || (needbeta && black.m[mi].bound == beta) {
          needbeta := needbeta && Lt(beta, black.m[mi].bound);
          ghost var b := Now();
          GrowsFlags(k, a, b, V(x), {V(x)});
          SelectModel(mi);
          assert PickedAt(k, x, i, mi);
          GrowsTrans(k, a, b, Now(), V(x), M(mi), {V(x)});
          GrowsSticks(k, b, Now(), M(mi), {});
        }
      }
      VarDone(k, Now(), x);
      GrowsDone(k, a, Now(), V(x));
    }

    /** `prune_select` of a model: its checked variables, its parameters, and marks on what it returns. */
    method SelectModel(m: nat)
      requires Parts() && BoundedOk(Stored()) && m < |g.models| && SkipsInfinite(Stored(), Now())
      modifies flagV, flagM
      ensures IsSel(Now(), M(m)) && Grows(Stored(), old(Now()), Now(), M(m), {})
      decreases Unselected(Now()), 0
    {
      hide BoundedOk, Grows, AllSucc, SkipsInfinite, Unselected;
      ghost var k, a := Stored(), Now();
      if flagM[m].selected {
        GrowsNot(k, a, M(m));
        return;
      }
      flagM[m] := flagM[m].(selected := true, select := true);
      assert Now() == SelectIn(a, M(m));
      GrowsFirst(k, a, M(m));
      GrowsFlags(k, a, Now(), M(m), {M(m)});
      assert IsNew(a, Now(), M(m));
      SelectChecked(m, a);
      GrowsFlags(k, a, Now(), M(m), {M(m)});
      SelectParams(m, a);
      ModelDone(k, Now(), m);
      ghost var b := Now();
      MarkReturns(m);
      GrowsReturns(k, a, b, Now(), m);
    }

    /** The checked variables that are not skipped. */
    method SelectChecked(m: nat, ghost a: Flags)
      requires Parts() && BoundedOk(Stored()) && m < |g.models| && SkipsInfinite(Stored(), Now())
      requires Grows(Stored(), a, Now(), M(m), {M(m)}) && IsNew(a, Now(), M(m))
      modifies flagV, flagM
      ensures Grows(Stored(), a, Now(), M(m), {M(m)}) && IsNew(a, Now(), M(m)) && SkipsInfinite(Stored(), Now())
      ensures Unselected(Now()) <= old(Unselected(Now()))
      ensures forall e, x: nat :: 0 <= e < |g.models[m].checks| && ChecksAt(Stored(), m, e, x) ==> IsSel(Now(), V(x))
      decreases Unselected(Now()), 3
    {
      hide BoundedOk, Grows, SkipsInfinite, Unselected;
      ghost var k := Stored();
      for e := 0 to |g.models[m].checks|
        invariant Grows(k, a, Now(), M(m), {M(m)}) && IsNew(a, Now(), M(m)) && SkipsInfinite(k, Now())
        invariant Unselected(Now()) <= old(Unselected(Now()))
        invariant forall d, x: nat :: 0 <= d < e && ChecksAt(k, m, d, x) ==> IsSel(Now(), V(x))
      {
        CheckedVar(k, Now(), m, e);
        var x := g.shadows[g.models[m].checks[e].idx];
        if !flagV[x].skip {
          assert ChecksAt(k, m, e, x);
          SelectNext(m, x, a);
        }
      }
    }

    /** One variable that model `m` leads to. */
    method SelectNext(m: nat, x: nat, ghost a: Flags)
      requires Parts() && BoundedOk(Stored()) && m < |g.models| && x < |g.vars| && SkipsInfinite(Stored(), Now())
      requires Grows(Stored(), a, Now(), M(m), {M(m)}) && IsNew(a, Now(), M(m)) && Succ(Stored(), M(m), V(x))
      modifies flagV, flagM
      ensures Grows(Stored(), a, Now(), M(m), {M(m)}) && IsNew(a, Now(), M(m)) && SkipsInfinite(Stored(), Now())
      ensures Unselected(Now()) <= old(Unselected(Now()))
      ensures IsSel(Now(), V(x)) && forall u :: old(IsSel(Now(), u)) ==> IsSel(Now(), u)
      decreases Unselected(Now()), 2
    {
      hide BoundedOk, Grows, SkipsInfinite, Unselected, Succ;
      ghost var k, b := Stored(), Now();
      SelectVar(x);
      GrowsTrans(k, a, b, Now(), M(m), V(x), {M(m)});
      GrowsSticks(k, b, Now(), V(x), {});
      GrowsFlags(k, b, Now(), V(x), {});
    }

    method SelectParams(m: nat, ghost a: Flags)
      requires Parts() && BoundedOk(Stored()) && m < |g.models| && SkipsInfinite(Stored(), Now())
      requires Grows(Stored(), a, Now(), M(m), {M(m)}) && IsNew(a, Now(), M(m))
      modifies flagV, flagM
      ensures Grows(Stored(), a, Now(), M(m), {M(m)}) && IsNew(a, Now(), M(m))
      ensures forall u :: old(IsSel(Now(), u)) ==> IsSel(Now(), u)
      ensures forall j, x: nat :: 0 <= j < |g.models[m].params| && TakesAt(Stored(), m, j, x) ==> IsSel(Now(), V(x))
      decreases Unselected(Now()), 3
    {
      hide BoundedOk, Grows, SkipsInfinite, Unselected;
      ghost var k := Stored();
      for j := 0 to |g.models[m].params|
        invariant Grows(k, a, Now(), M(m), {M(m)}) && IsNew(a, Now(), M(m)) && SkipsInfinite(k, Now())
        invariant Unselected(Now()) <= old(Unselected(Now()))
        invariant forall u :: old(IsSel(Now(), u)) ==> IsSel(Now(), u)
        invariant forall i, x: nat :: 0 <= i < j && TakesAt(k, m, i, x) ==> IsSel(Now(), V(x))
      {
        TakenVar(k, m, j);
        assert TakesAt(k, m, j, g.models[m].params[j].idx);
        SelectNext(m, g.models[m].params[j].idx, a);
      }
    }

    /** Marks the variables that `m` returns. */
    method MarkReturns(m: nat)
      requires Parts() && BoundedOk(Stored()) && m < |g.models|
      modifies flagV
      ensures RetsMarked(Stored(), old(Now()), Now(), m, |g.models[m].rets|)
    {
      for j := 0 to |g.models[m].rets|
        invariant RetsMarked(Stored(), old(Now()), Now(), m, j)
      {
        flagV[g.models[m].rets[j].idx] := flagV[g.models[m].rets[j].idx].(ret := true);
      }
    }

    /** `prune_mark_selects`: selects from every retained node; one without a finite gray bound cannot be had. */
    method MarkSelects() returns (r: PruneResult)
      requires Parts() && BoundedOk(Stored()) && SkipsInfinite(Stored(), Now()) && Unselects(Now())
      modifies flagV, flagM
      ensures r.PruneOk? ==> SelectedExactly(Stored(), old(Now()), Now()) && KeptFinite(Stored(), old(Now()))
      ensures r.NoChain? ==>
          IsNode(Stored(), r.at) && GrayOf(Stored(), r.at).Inf? && RootLeads(Stored(), old(Now()), r.at)
      ensures r.NoChain? ==> IsRoot(old(Now()), r.at) || FineLeads(Stored(), old(Now()), r.at)
    {
      hide BoundedOk, SkipsInfinite, Unselects, GrowsRoots, RootLeads, SelectedExactly, RetsKept, FineLeads;
      ghost var k, a := Stored(), Now();
      GrowsRootsNot(k, a);
      for i := 0 to |g.models|
        invariant GrowsRoots(k, a, Now()) && SkipsInfinite(k, Now()) && AllFine(k, a, Now())
        invariant forall m: nat :: |g.models| - i <= m < |g.models| && IsRoot(a, M(m)) ==>
            IsSel(Now(), M(m)) && k.gray.m[m].Fin?
      {
        r := SelectRoot(M(|g.models| - 1 - i), a);
        if r.NoChain? {
          return;
        }
      }
      for x := 0 to |g.vars|
        invariant GrowsRoots(k, a, Now()) && SkipsInfinite(k, Now()) && AllFine(k, a, Now())
        invariant forall m: nat :: m < |g.models| && IsRoot(a, M(m)) ==> IsSel(Now(), M(m)) && k.gray.m[m].Fin?
        invariant forall y: nat :: y < x && IsRoot(a, V(y)) ==> IsSel(Now(), V(y)) && k.gray.v[y].Fin?
      {
        r := SelectRoot(V(x), a);
        if r.NoChain? {
          return;
        }
      }
      ghost var b := Now();
      assert forall u :: IsRoot(a, u) ==> IsSel(b, u) by {
        assert |a.v| == |g.vars| && |a.m| == |g.models|;
      }
      KeepReturned();
      SelectionDone(k, a, b, Now());
      r := PruneOk;
    }

    /** One node of `prune_mark_selects`. */
    method SelectRoot(u: Node, ghost a: Flags) returns (r: PruneResult)
      requires Parts() && BoundedOk(Stored()) && SkipsInfinite(Stored(), Now()) && Unselects(a) && IsNode(Stored(), u)
      requires GrowsRoots(Stored(), a, Now()) && AllFine(Stored(), a, Now())
      modifies flagV, flagM
      ensures GrowsRoots(Stored(), a, Now()) && SkipsInfinite(Stored(), Now()) && AllFine(Stored(), a, Now())
      ensures forall w :: old(IsSel(Now(), w)) ==> IsSel(Now(), w)
      ensures r.PruneOk? && IsRoot(a, u) ==> IsSel(Now(), u) && GrayOf(Stored(), u).Fin?
      ensures r.NoChain? ==> r.at == u && GrayOf(Stored(), u).Inf? && RootLeads(Stored(), a, u)
      ensures r.NoChain? ==> IsRoot(a, u) || FineLeads(Stored(), a, u)
    {
      hide BoundedOk, Unselects, GrowsRoots, RootLeads, Grows, AllFine, FineLeads;
      ghost var k, b := Stored(), Now();
      if IsRoot(a, u) {
        RootsStay(k, a, b, u);
      }
      if u.V? {
        if !flagV[u.x].select {
          return PruneOk;
        }
        SelectBit(k, a, b, u);
        FineBit(k, a, b, u);
        if flagV[u.x].skip {
          return NoChain(u);
        }
        SelectVar(u.x);
      } else {
        if !flagM[u.m].select {
          return PruneOk;
        }
        SelectBit(k, a, b, u);
        FineBit(k, a, b, u);
        if flagM[u.m].skip {
          return NoChain(u);
        }
        SelectModel(u.m);
      }
      GrowsRootsTrans(k, a, b, Now(), u);
      AllFineTrans(k, a, b, Now(), u);
      GrowsSticks(k, b, Now(), u, {});
      GrowsFlags(k, b, Now(), u, {});
      r := PruneOk;
    }

    /** Variables that selected models return are kept as well. */
    method KeepReturned()
      modifies flagV
      ensures RetsKept(old(Now()), Now())
    {
      for x := 0 to flagV.Length
        invariant forall y :: 0 <= y < x ==>
            flagV[y] == old(flagV[y]).(select := old(flagV[y].select) || old(flagV[y].ret))
        invariant forall y :: x <= y < flagV.Length ==> flagV[y] == old(flagV[y])
      {
        if flagV[x].ret {
          flagV[x] := flagV[x].(select := true);
        }
      }
    }

    /** `fhk_prune_run`: the least cost bounds of both colours, and exactly what the retained nodes lead to. */
    method Run() returns (r: PruneResult)
      requires Idle() && Unselects(Now())
      modifies heap, heap.nodes, gray.v, gray.m, black.v, black.m, flagV, flagM
      ensures Parts() && (r.PruneOk? ==> Pruned(g, old(Now()), Stored(), Now()))
      ensures r.NoChain? ==> Refused(g, old(Now()), r.at)
    {
      hide NetOk, LeastBounds, During, Heap.Valid, Heap.Contents, SelectedExactly, RootLeads;
      ghost var f := Now();
      MarkModels();
      var n := NetOf(g, Now());
      StartNetOk(g, f);
      r := Begin(n);
      if r.NoChain? {
        return;
      }
      ghost var pops := Propagate(n);
      ghost var f1 := Now();
      MarkUnreachable();
      ghost var f2 := Now();
      RunFacts(g, f, n, Stored(), f1, f2);
      r := MarkSelects();
      SameRoots(g, f, n, Stored(), f2, Now(), r);
    }
  }
}
