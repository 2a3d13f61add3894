/** When pruning and solving ends without an answer: exact conditions on the graph and the caller's flags. */
module Outcomes {
  import opened Costs
  import opened Graphs
  import opened Heaps
  import opened Bounds
  import opened Selection
  import opened Pruner
  import opened Optimum
  import opened PrunedGraph
  import opened SolverState
  import opened Depths

  // ---------- refused, or not built ----------

  /** A given variable is skipped, or a retained node has no gray bound. */
  ghost predicate Refuses(g: Graph, f: Flags)
    requires GraphOk(g) && ForwardsOk(g) && BackwardsOk(g) && FlagsFit(g, f)
  {
    Clash(f) || exists k :: BothLeast(StartNet(g, f), k) && !KeptFinite(k, f)
  }

  /** The retained nodes lead to a model with a check on a variable that has no gray bound. */
  ghost predicate LosesCheck(g: Graph, f: Flags)
    requires GraphOk(g) && ForwardsOk(g) && BackwardsOk(g) && FlagsFit(g, f)
  {
    exists k, m: nat, e: nat :: BothLeast(StartNet(g, f), k) && LostAt(k, f, m, e)
  }

  ghost predicate LostAt(k: Bounded, f: Flags, m: nat, e: nat)
    requires BoundedOk(k)
  {
    && RootLeads(k, f, M(m)) && m < |k.g.models| && e < |k.g.models[m].checks|
    && Checked(k.g, m, e) < |k.g.vars| && k.gray.v[Checked(k.g, m, e)].Inf?
  }

  lemma SimpleParams(p: Problem)
    requires SimpleMaps(p)
    ensures ParamsSimple(p.g)
  {
  }

  lemma PrunedLeast(g: Graph, f: Flags, k: Bounded, f': Flags)
    requires GraphOk(g) && ForwardsOk(g) && BackwardsOk(g) && FlagsFit(g, f) && Pruned(g, f, k, f')
    ensures BothLeast(StartNet(g, f), k) && KeptFinite(k, f) && !Clash(f)
  {
    hide GraphOk, ForwardsOk, BackwardsOk, LeastBounds, KeptFinite, SelectedExactly, BoundedOk, NetOk;
    StartNetOk(g, f);
  }

  /** A run that succeeds had no reason to be refused. */
  lemma PrunedNotRefused(g: Graph, f: Flags, k: Bounded, f': Flags)
    requires GraphOk(g) && ForwardsOk(g) && BackwardsOk(g) && FlagsFit(g, f) && Pruned(g, f, k, f')
    ensures !Refuses(g, f)
  {
    hide GraphOk, ForwardsOk, BackwardsOk, Pruned, KeptFinite, LeastBounds, NetOk, BoundedOk, Clash;
    PrunedLeast(g, f, k, f');
    if k' :| BothLeast(StartNet(g, f), k') && !KeptFinite(k', f) {
      BoundsUnique(StartNet(g, f), k, k');
    }
  }

  /** A run that is refused had one. */
  lemma RefusedHasReason(g: Graph, f: Flags, u: Node)
    requires GraphOk(g) && ForwardsOk(g) && BackwardsOk(g) && FlagsFit(g, f) && ParamsSimple(g) && Refused(g, f, u)
    ensures Refuses(g, f)
  {
    hide GraphOk, ForwardsOk, BackwardsOk, LeastBounds, KeptFinite, BoundedOk, ParamsSimple, RootLeads, Clash;
    StartNetOk(g, f);
    if !Clash(f) {
      ClashAt(f, u);
      var k :| Unreachable(g, f, k, u);
      RefusedExactly(g, f, k);
    }
  }

  /** The node that a refusal names: a given variable that is skipped, or a retained node that cannot be had. */
  ghost predicate RefusedAt(g: Graph, f: Flags, u: Node)
    requires GraphOk(g) && ForwardsOk(g) && BackwardsOk(g) && FlagsFit(g, f)
  {
    || (u.V? && u.x < |f.v| && f.v[u.x].given && f.v[u.x].skip)
    || (!Clash(f) && IsRoot(f, u)
        && exists k :: BothLeast(StartNet(g, f), k) && IsNode(k, u) && GrayOf(k, u).Inf?)
  }

  lemma RefusedNode(g: Graph, f: Flags, u: Node)
    requires GraphOk(g) && ForwardsOk(g) && BackwardsOk(g) && FlagsFit(g, f) && ParamsSimple(g) && Refused(g, f, u)
    ensures RefusedAt(g, f, u)
  {
    hide GraphOk, ForwardsOk, BackwardsOk, LeastBounds, KeptFinite, BoundedOk, ParamsSimple, RootLeads, Clash, Leads;
    StartNetOk(g, f);
    if !Clash(f) {
      ClashAt(f, u);
      var k :| Unreachable(g, f, k, u);
      if !IsRoot(f, u) {
        var r :| IsRoot(f, r) && IsNode(k, r) && GrayOf(k, r).Fin? && Leads(k, r, u);
        LeadsFinite(StartNet(g, f), k, r, u);
      }
    }
  }

  lemma LeadsFinite(n: Net, k: Bounded, r: Node, u: Node)
    requires BothLeast(n, k) && ParamsSimple(k.g) && IsNode(k, r) && GrayOf(k, r).Fin? && Leads(k, r, u)
    ensures IsNode(k, u) && GrayOf(k, u).Fin?
  {
    hide LeastBounds, BoundedOk, ParamsSimple, Succ;
    var p :| IsPath(k, p) && p[0] == r && p[|p| - 1] == u;
    PathFinite(n, k, p);
  }

  lemma ClashAt(f: Flags, u: Node)
    ensures u.V? && u.x < |f.v| && f.v[u.x].given && f.v[u.x].skip ==> Clash(f)
  {
  }

  /** A variable that a selected model checks is kept exactly if it has a gray bound. */
  lemma KeptIffFinite(p: Problem, f: Flags, k: Bounded, f': Flags, t: Truth, m: nat, e: nat)
    requires Scene(p, f, k, f', t) && KeptModel(f', m) && m < |p.g.models| && e < |p.g.models[m].checks|
    ensures Checked(p.g, m, e) < |k.gray.v| && (KeptVar(f', Checked(p.g, m, e)) <==> k.gray.v[Checked(p.g, m, e)].Fin?)
  {
    hide WellFormed, LeastBounds, KeptFinite, NetOk, ForwardsOk, BackwardsOk, SimpleMaps, FullSolution, RootLeads, Succ;
    CheckedInRange(p, m, e);
    var x := Checked(p.g, m, e);
    if k.gray.v[x].Fin? {
      CheckedSucc(k, m, e, x);
      SelSucc(k, f, f', M(m), V(x));
      SelectedKept(k, f, f', x);
    }
    if KeptVar(f', x) {
      if f'.v[x].selected {
        SelectedVarFinite(p, f, k, f', t, x);
      } else {
        var l: nat :| IsSel(f', M(l)) && Returns(k, l, x);
        ReturnedFinite(p, f, k, f', t, l, x);
      }
    }
  }

  lemma CheckedInRange(p: Problem, m: nat, e: nat)
    requires WellFormed(p) && m < |p.g.models| && e < |p.g.models[m].checks|
    ensures GraphOk(p.g) && Checked(p.g, m, e) < |p.g.vars|
  {
    assert ModelOk(p.g, p.g.models[m]);
  }

  lemma CheckedSucc(k: Bounded, m: nat, e: nat, x: nat)
    requires BoundedOk(k) && ChecksAt(k, m, e, x)
    ensures Succ(k, M(m), V(x))
  {
  }

  lemma ReturnedFinite(p: Problem, f: Flags, k: Bounded, f': Flags, t: Truth, l: nat, x: nat)
    requires Scene(p, f, k, f', t) && KeptModel(f', l) && Returns(k, l, x)
    ensures x < |k.gray.v| && k.gray.v[x].Fin?
  {
    hide KeptFinite, NetOk, ForwardsOk, BackwardsOk, SimpleMaps, FullSolution, SelectedExactly, WellFormed, Attained,
        SkipMarked, GraphOk;
    SelectedModelFinite(p, f, k, f', t, l);
    var n := StartNet(p.g, f);
    var j :| 0 <= j < |p.g.models[l].rets| && p.g.models[l].rets[j].idx == x;
    assert ReturnsVar(n, Gray, l, x);
  }

  /** Some check of a model that is left looks at a variable that is gone. */
  ghost predicate CheckGone(g: Graph, f': Flags)
    requires GraphOk(g)
  {
    exists m: nat, e: nat :: KeptModel(f', m) && m < |g.models| && e < |g.models[m].checks|
        && !KeptVar(f', Checked(g, m, e))
  }

  /** What is left cannot be built exactly if the retained nodes lead to a check without a gray bound. */
  lemma GoneIfLost(p: Problem, f: Flags, k: Bounded, f': Flags, t: Truth)
    requires Scene(p, f, k, f', t) && GraphOk(p.g)
    ensures CheckGone(p.g, f') <==> LosesCheck(p.g, f)
  {
    hide WellFormed, Pruned, ForwardsOk, BackwardsOk, SimpleMaps, FullSolution, GraphOk, LeastBounds, NetOk, BoundedOk,
        LostAt, RootLeads, KeptVar, KeptModel;
    PrunedLeast(p.g, f, k, f');
    if CheckGone(p.g, f') {
      var m: nat, e: nat :| KeptModel(f', m) && m < |p.g.models| && e < |p.g.models[m].checks|
          && !KeptVar(f', Checked(p.g, m, e));
      KeptIffFinite(p, f, k, f', t, m, e);
      KeptLed(p.g, f, k, f', m);
      LostHere(p.g, f, k, m, e);
    }
    if k', m: nat, e: nat :| BothLeast(StartNet(p.g, f), k') && LostAt(k', f, m, e) {
      BoundsUnique(StartNet(p.g, f), k, k');
      LostModel(p.g, f, k, f', m, e);
      KeptIffFinite(p, f, k, f', t, m, e);
    }
  }

  lemma KeptLed(g: Graph, f: Flags, k: Bounded, f': Flags, m: nat)
    requires GraphOk(g) && ForwardsOk(g) && BackwardsOk(g) && FlagsFit(g, f) && Pruned(g, f, k, f')
    ensures BoundedOk(k) && k.g == g && (KeptModel(f', m) <==> m < |g.models| && RootLeads(k, f, M(m)))
  {
    hide ForwardsOk, BackwardsOk, LeastBounds, KeptFinite, RootLeads;
    assert KeptModel(f', m) == IsSel(f', M(m));
  }

  lemma LostHere(g: Graph, f: Flags, k: Bounded, m: nat, e: nat)
    requires GraphOk(g) && ForwardsOk(g) && BackwardsOk(g) && FlagsFit(g, f) && BothLeast(StartNet(g, f), k)
    requires RootLeads(k, f, M(m)) && m < |g.models| && e < |g.models[m].checks|
    requires Checked(g, m, e) < |k.gray.v| && k.gray.v[Checked(g, m, e)].Inf?
    ensures LosesCheck(g, f)
  {
    hide LeastBounds, NetOk, RootLeads;
    assert LostAt(k, f, m, e);
  }

  lemma LostModel(g: Graph, f: Flags, k: Bounded, f': Flags, m: nat, e: nat)
    requires GraphOk(g) && ForwardsOk(g) && BackwardsOk(g) && FlagsFit(g, f) && Pruned(g, f, k, f')
    requires BoundedOk(k) && LostAt(k, f, m, e)
    ensures KeptModel(f', m) && m < |g.models| && e < |g.models[m].checks| && Checked(g, m, e) < |k.gray.v|
    ensures k.gray.v[Checked(g, m, e)].Inf?
  {
    hide ForwardsOk, BackwardsOk, Pruned, RootLeads;
    KeptLed(g, f, k, f', m);
  }

  // ---------- given up ----------

  /** What is left has no dependencies that the whole graph does not have. */
  lemma LeftRanked(p: Problem, k: Bounded, f': Flags, p': Problem, rv: Ref -> nat, rm: Ref -> nat)
    requires Fits(p, k, f', p') && WellFormed(p') && Ranked(p, rv, rm)
    ensures Ranked(p', rv, rm)
  {
    hide WellFormed, Rebuilt;
    SameSpaces(p, k, f', p');
    forall x: Ref, ei: nat, i: nat | IsCand(p', x, ei, i)
      ensures rm(CandRef(p', x, ei, i)) < rv(x)
    {
      var e := CandBack(p, k, f', p', x, ei, i);
    }
    forall m: Ref, e: nat, i: nat | IsParam(p', m, e, i)
      ensures rv(ParamRef(p', m, e, i)) < rm(m)
    {
      var d := SameParam(p, k, f', p', m, e, i);
    }
    forall m: Ref, e: nat, i: nat | IsCheck(p', m, e, i)
      ensures CheckRef(p', m, e, i).idx < |p'.g.shadows| && rv(Guarded(p', CheckRef(p', m, e, i))) < rm(m)
    {
      var d := SameCheck(p, k, f', p', m, e, i);
    }
  }

  lemma SameParam(p: Problem, k: Bounded, f': Flags, p': Problem, m: Ref, e: nat, i: nat) returns (d: nat)
    requires Fits(p, k, f', p') && IsParam(p', m, e, i)
    ensures IsParam(p, m, d, i) && ParamRef(p, m, d, i) == ParamRef(p', m, e, i)
  {
    SameSpaces(p, k, f', p');
    hide GraphOk, RebuiltVars, RebuiltModel;
    d := ParamBack(p, k, f', p', m.idx, e);
  }

  lemma SameCheck(p: Problem, k: Bounded, f': Flags, p': Problem, m: Ref, e: nat, i: nat) returns (d: nat)
    requires Fits(p, k, f', p') && IsCheck(p', m, e, i)
    ensures IsCheck(p, m, d, i) && CheckRef(p, m, d, i) == CheckRef(p', m, e, i) && p'.g.shadows == p.g.shadows
    ensures CheckRef(p', m, e, i).idx < |p'.g.shadows|
  {
    SameSpaces(p, k, f', p');
    hide GraphOk, RebuiltVars, RebuiltModel;
    d := CheckBack(p, k, f', p', m.idx, e);
  }

  lemma LeftAcyclic(p: Problem, k: Bounded, f': Flags, p': Problem)
    requires Fits(p, k, f', p') && WellFormed(p') && Acyclic(p)
    ensures Acyclic(p')
  {
    hide WellFormed, Rebuilt, Ranked;
    var rv: Ref -> nat, rm: Ref -> nat :| Ranked(p, rv, rm);
    LeftRanked(p, k, f', p', rv, rm);
  }

  lemma LeftNeeds(p: Problem, k: Bounded, f': Flags, p': Problem, x: Ref, y: Ref)
    requires Fits(p, k, f', p') && Needs(p', x, y) && !Given(p.g, y.idx)
    ensures Needs(p, x, y)
  {
    hide GraphOk, Rebuilt;
    var ei: nat, i: nat :| IsCand(p', x, ei, i) && Takes(p', CandRef(p', x, ei, i), y);
    var m := CandRef(p', x, ei, i);
    var d := CandBack(p, k, f', p', x, ei, i);
    if e: nat, j: nat :| IsParam(p', m, e, j) && e < ModelOf(p', m).cparam && ParamRef(p', m, e, j) == y {
      var c := SameParam(p, k, f', p', m, e, j);
    } else {
      var e: nat, j: nat :| IsCheck(p', m, e, j) && CheckRef(p', m, e, j).idx < |p'.g.shadows|
          && Guarded(p', CheckRef(p', m, e, j)) == y;
      var c := SameCheck(p, k, f', p', m, e, j);
    }
    assert Takes(p, m, y);
  }

  lemma {:induction false} FullList(p: Problem, x: Ref, n: nat)
    requires IsVar(p, x) && n <= NumEdges(p, x) && SimpleMaps(p)
    ensures |CandList(p, x, n)| == n
  {
    if n > 0 {
      FullList(p, x, n - 1);
      SimpleInsts(p, p.g.vars[x.idx].models[n - 1].via, x.inst);
    }
  }

  lemma FewerEdges(p: Problem, k: Bounded, f': Flags, p': Problem, x: Ref)
    requires Fits(p, k, f', p') && IsVar(p', x)
    ensures IsVar(p, x) && NumEdges(p', x) <= NumEdges(p, x)
  {
    SameSpaces(p, k, f', p');
    hide GraphOk, RebuiltModel;
  }

  lemma {:induction false} FewerCandidates(p: Problem, k: Bounded, f': Flags, p': Problem, xs: seq<Ref>)
    requires Fits(p, k, f', p') && SimpleMaps(p) && (forall x :: x in xs ==> IsVar(p', x))
    requires (forall x :: x in xs ==> IsVar(p, x))
    ensures Candidates(p', xs) <= Candidates(p, xs)
  {
    hide Fits, SimpleMaps, IsVar, CandList, NumEdges;
    if xs != [] {
      var x := xs[|xs| - 1];
      FewerCandidates(p, k, f', p', xs[..|xs| - 1]);
      FewerEdges(p, k, f', p', x);
      CandListShort(p', x, NumEdges(p', x));
      FullList(p, x, NumEdges(p, x));
    }
  }

  /** What is too deep for the solver in the selected part is so in the whole graph. */
  lemma LeftDeep(p: Problem, k: Bounded, f': Flags, p': Problem, root: Ref)
    requires Fits(p, k, f', p') && SimpleMaps(p) && Deep(p', root)
    ensures Deep(p, root)
  {
    hide Fits, SimpleMaps, Needs, Candidates, IsVar, NumEdges;
    var xs: seq<Ref> :| Overflows(p', xs) && xs[0] == root;
    forall n | 0 <= n < |xs|
      ensures IsVar(p, xs[n]) && NumEdges(p', xs[n]) <= NumEdges(p, xs[n]) && !Given(p.g, xs[n].idx)
    {
      FewerEdges(p, k, f', p', xs[n]);
      StillComputed(p, k, f', p', xs[n]);
    }
    forall n | 0 < n < |xs|
      ensures Needs(p, xs[n - 1], xs[n])
    {
      LeftNeeds(p, k, f', p', xs[n - 1], xs[n]);
    }
    FewerCandidates(p, k, f', p', xs[..|xs| - 1]);
    assert Overflows(p, xs);
  }

  lemma StillComputed(p: Problem, k: Bounded, f': Flags, p': Problem, x: Ref)
    requires Fits(p, k, f', p') && IsVar(p', x) && !Given(p'.g, x.idx)
    ensures !Given(p.g, x.idx)
  {
    FewerEdges(p, k, f', p', x);
    hide GraphOk, RebuiltModel;
  }
}
