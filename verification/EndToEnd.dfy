/** From the whole graph to the solver's answer: pruning and solving what is left gives the costs of the whole. */
module EndToEnd {
  import opened Costs
  import opened Graphs
  import opened Heaps
  import opened Bounds
  import opened Selection
  import opened Pruner
  import opened Optimum
  import opened Sums
  import opened PrunedGraph
  import opened Outcomes
  import opened Obtaining
  import opened LeftValues
  import opened Plans
  import opened Ranks
  import Depths
  import SolverState
  import Values
  import Solver
  import Rebuild

  // ---------- variables ----------

  lemma KeptVarSolved(p: Problem, f: Flags, k: Bounded, f': Flags, t: Truth, p': Problem, x: Ref)
    requires Worlds(p, f, k, f', t, p') && Bracketed(p, k, t) && IsVar(p, x) && IsVar(p', x) && IsSel(f', V(x.idx))
    ensures VarEquation(p', Left(p', f', t), x)
  {
    hide WellFormed, LeastBounds, KeptFinite, SelectedExactly, NetOk, ForwardsOk, BackwardsOk, SimpleMaps, GraphOk,
        RebuiltModel, SkipMarked, Rebuilt, ModelEquation, BestTo;
    WorldFits(p, f, k, f', t, p');
    GivenKept(p, f, k, f', t, p', x.idx);
    var u := Left(p', f', t);
    if !f.v[x.idx].given {
      assert Cheapest(p, t, x);
      forall ei': nat, i: nat | IsCand(p', x, ei', i)
        ensures Le(u.v(x), u.m(CandRef(p', x, ei', i)))
      {
        var ei := CandBack(p, k, f', p', x, ei', i);
      }
      if t.v(x).Fin? {
        KeptLeft(p, f, k, f', t, p', x);
      }
    }
  }

  lemma KeptLeft(p: Problem, f: Flags, k: Bounded, f': Flags, t: Truth, p': Problem, x: Ref)
    requires Worlds(p, f, k, f', t, p') && Bracketed(p, k, t) && IsVar(p, x) && IsSel(f', V(x.idx))
    requires !f.v[x.idx].given && t.v(x).Fin?
    ensures IsVar(p', x)
    ensures exists ei: nat, i: nat :: IsCand(p', x, ei, i) && LeftModel(p', f', t)(CandRef(p', x, ei, i)) == t.v(x)
  {
    hide WellFormed, LeastBounds, KeptFinite, SelectedExactly, NetOk, ForwardsOk, BackwardsOk, SimpleMaps, GraphOk,
        RebuiltModel, SkipMarked, Rebuilt, FullSolution;
    WorldFits(p, f, k, f', t, p');
    var ei, i := KeptAttains(p, f, k, f', t, x);
    SelectedKept(k, f, f', x.idx);
    var ei' := CandForth(p, k, f', p', x, ei, i);
  }

  lemma OtherVarSolved(p: Problem, f': Flags, t: Truth, x: Ref)
    requires IsVar(p, x) && !IsSel(f', V(x.idx))
    ensures VarEquation(p, Left(p, f', t), x)
  {
    var u := Left(p, f', t);
    if !Given(p.g, x.idx) {
      BestToIs(p, u.m, x, NumEdges(p, x), 0);
      forall ei: nat, i: nat | IsCand(p, x, ei, i)
        ensures Le(u.v(x), u.m(CandRef(p, x, ei, i)))
      {
        assert Before(p, x, ei, i, NumEdges(p, x), 0);
      }
    }
  }

  // ---------- models ----------

  /** All parameters and checks of a selected model keep their costs. */
  lemma ArgumentsKept(p: Problem, f: Flags, k: Bounded, f': Flags, t: Truth, p': Problem, m: nat)
    requires Worlds(p, f, k, f', t, p') && KeptModel(f', m) && m < |p.g.models|
    ensures forall j :: 0 <= j < |p.g.models[m].params| ==> IsSel(f', V(p.g.models[m].params[j].idx))
    ensures forall e: nat :: e < |p.g.models[m].checks| ==> IsSel(f', V(Checked(p.g, m, e)))
  {
    hide LeastBounds, KeptFinite, SelectedExactly, NetOk, ForwardsOk, BackwardsOk, SimpleMaps, RebuiltModel,
        RebuiltVars, FullSolution;
    forall j: nat | j < |p.g.models[m].params|
      ensures IsSel(f', V(p.g.models[m].params[j].idx))
    {
      assert TakesAt(k, m, j, p.g.models[m].params[j].idx);
      SelSucc(k, f, f', M(m), V(p.g.models[m].params[j].idx));
    }
    forall e: nat | e < |p.g.models[m].checks|
      ensures IsSel(f', V(Checked(p.g, m, e)))
    {
      CheckedKept(p, f, k, f', t, p', m, e);
    }
  }

  /** A checked variable that is left is reachable, and so selected. */
  lemma CheckedKept(p: Problem, f: Flags, k: Bounded, f': Flags, t: Truth, p': Problem, m: nat, e: nat)
    requires Worlds(p, f, k, f', t, p') && KeptModel(f', m) && m < |p.g.models| && e < |p.g.models[m].checks|
    ensures IsSel(f', V(Checked(p.g, m, e)))
  {
    hide WellFormed, LeastBounds, KeptFinite, SelectedExactly, NetOk, ForwardsOk, BackwardsOk, SimpleMaps,
        RebuiltModel, RebuiltVars, FullSolution, RootLeads, Succ;
    assert KeptVar(f', Checked(p.g, m, e));
    KeptIffFinite(p, f, k, f', t, m, e);
    CheckedSucc(k, m, e, Checked(p.g, m, e));
    SelSucc(k, f, f', M(m), V(Checked(p.g, m, e)));
  }

  lemma KeptModelSolved(p: Problem, f: Flags, k: Bounded, f': Flags, t: Truth, p': Problem, m: Ref)
    requires Worlds(p, f, k, f', t, p') && GraphOk(p'.g) && IsModel(p, m) && IsModel(p', m) && KeptModel(f', m.idx)
    ensures ModelEquation(p', Left(p', f', t), m)
  {
    hide LeastBounds, KeptFinite, SelectedExactly, NetOk, ForwardsOk, BackwardsOk, SimpleMaps, RebuiltVars, ExactS,
        BestTo, WellFormed, RebuiltModel;
    ArgumentsKept(p, f, k, f', t, p', m.idx);
    SelectedModelFinite(p, f, k, f', t, m.idx);
    assert ModelEquation(p, t, m);
    RebuiltKept(p, f, k, f', t, p', m.idx);
    ChecksInRange(p, m.idx);
    ExactSPermuted(p, t, p', Left(p', f', t), m);
  }

  lemma ChecksInRange(p: Problem, m: nat)
    requires GraphOk(p.g) && m < |p.g.models|
    ensures forall c :: c in p.g.models[m].checks ==> c.idx < |p.g.shadows|
    ensures forall c :: c in p.g.models[m].checks ==>
        exists e: nat :: e < |p.g.models[m].checks| && Checked(p.g, m, e) == p.g.shadows[c.idx]
  {
    assert ModelOk(p.g, p.g.models[m]);
    forall c | c in p.g.models[m].checks
      ensures c.idx < |p.g.shadows|
      ensures exists e: nat :: e < |p.g.models[m].checks| && Checked(p.g, m, e) == p.g.shadows[c.idx]
    {
      var e :| 0 <= e < |p.g.models[m].checks| && p.g.models[m].checks[e] == c;
      assert Checked(p.g, m, e) == p.g.shadows[c.idx];
    }
  }

  lemma RebuiltKept(p: Problem, f: Flags, k: Bounded, f': Flags, t: Truth, p': Problem, m: nat)
    requires Worlds(p, f, k, f', t, p') && KeptModel(f', m) && m < |p.g.models|
    ensures m < |p'.g.models| && p'.shape == p.shape && p'.umap == p.umap && p'.guard == p.guard
    ensures p'.g.shadows == p.g.shadows
    ensures multiset(p'.g.models[m].params) == multiset(p.g.models[m].params)
    ensures multiset(p'.g.models[m].checks) == multiset(p.g.models[m].checks)
    ensures p'.g.models[m].k == p.g.models[m].k && p'.g.models[m].c == p.g.models[m].c
    ensures m < |k.gray.m| && Fin(p'.g.models[m].cmin) == k.gray.m[m]
  {
    hide LeastBounds, KeptFinite, SelectedExactly, NetOk, ForwardsOk, BackwardsOk, SimpleMaps, RebuiltVars, WellFormed,
        FullSolution;
    assert RebuiltModel(p.g, k, f', p.g.models[m], p'.g.models[m], m);
  }

  /** A model that is out of the game has neither parameters nor checks. */
  lemma OtherModelSolved(p: Problem, k: Bounded, f': Flags, t: Truth, p': Problem, m: Ref)
    requires Fits(p, k, f', p') && GraphOk(p'.g) && IsModel(p', m) && !KeptModel(f', m.idx)
    ensures ModelEquation(p', Left(p', f', t), m)
    ensures p'.g.models[m.idx].cmin == p'.g.models[m.idx].k
  {
    hide GraphOk, RebuiltVars, IsParam, IsCheck, BestTo;
    assert RebuiltModel(p.g, k, f', p.g.models[m.idx], p'.g.models[m.idx], m.idx);
    assert ExactS(p', Left(p', f', t), m) == Fin(0.0);
  }

  // ---------- the theorem ----------

  /** The true costs of the whole graph solve the equations of the selected part. */
  lemma LeftSolves(p: Problem, f: Flags, k: Bounded, f': Flags, t: Truth, p': Problem)
    requires Worlds(p, f, k, f', t, p') && Bracketed(p, k, t)
    ensures WellFormed(p') && IsSolution(p', Left(p', f', t))
  {
    hide Worlds, Bracketed, VarEquation, ModelEquation, IsSel, KeptModel, Fits;
    WorldFits(p, f, k, f', t, p');
    RebuiltWellFormed(p, k, f', p');
    SameSpaces(p, k, f', p');
    forall x: Ref | IsVar(p', x)
      ensures VarEquation(p', Left(p', f', t), x)
    {
      if IsSel(f', V(x.idx)) {
        KeptVarSolved(p, f, k, f', t, p', x);
      } else {
        OtherVarSolved(p', f', t, x);
      }
    }
    forall m: Ref | IsModel(p', m)
      ensures ModelEquation(p', Left(p', f', t), m)
    {
      if KeptModel(f', m.idx) {
        KeptModelSolved(p, f, k, f', t, p', m);
      } else {
        OtherModelSolved(p, k, f', t, p', m);
      }
    }
  }

  /** Gray bounds are right as start bounds of the solver. */
  lemma GrayStarts(p: Problem, f: Flags, k: Bounded, f': Flags, t: Truth, p': Problem)
    requires Worlds(p, f, k, f', t, p') && Bracketed(p, k, t)
    ensures SolverState.StartBounds(p', Left(p', f', t))
  {
    hide Worlds, Bracketed, Left, Fits;
    WorldFits(p, f, k, f', t, p');
    RebuiltGraphOk(p, k, f', p');
    SameSpaces(p, k, f', p');
    forall m: Ref | IsModel(p', m)
      ensures ModelOf(p', m).k <= ModelOf(p', m).cmin && Le(Fin(ModelOf(p', m).cmin), Left(p', f', t).m(m))
    {
      GrayStart(p, f, k, f', t, p', m);
    }
  }

  lemma GrayStart(p: Problem, f: Flags, k: Bounded, f': Flags, t: Truth, p': Problem, m: Ref)
    requires Worlds(p, f, k, f', t, p') && Bracketed(p, k, t) && GraphOk(p'.g) && IsModel(p', m) && IsModel(p, m)
    ensures ModelOf(p', m).k <= ModelOf(p', m).cmin && Le(Fin(ModelOf(p', m).cmin), Left(p', f', t).m(m))
  {
    hide WellFormed, LeastBounds, KeptFinite, SelectedExactly, NetOk, ForwardsOk, BackwardsOk, SimpleMaps,
        FullSolution, Rebuilt, BestTo;
    if KeptModel(f', m.idx) {
      RebuiltKept(p, f, k, f', t, p', m.idx);
      GrayAtLeastK(p, f, k, f', t, m.idx);
    } else {
      WorldFits(p, f, k, f', t, p');
      OtherModelSolved(p, k, f', t, p', m);
    }
  }

  lemma GrayAtLeastK(p: Problem, f: Flags, k: Bounded, f': Flags, t: Truth, m: nat)
    requires Scene(p, f, k, f', t) && KeptModel(f', m) && m < |p.g.models|
    ensures m < |k.gray.m| && Le(Fin(p.g.models[m].k), k.gray.m[m])
  {
    hide KeptFinite, ForwardsOk, BackwardsOk, SimpleMaps, FullSolution, SelectedExactly, WellFormed, Attained,
        SkipMarked, GraphOk;
    SelectedModelFinite(p, f, k, f', t, m);
    BoundAtLeastK(StartNet(p.g, f), k.gray, m);
  }

  lemma BoundAtLeastK(n: Net, l: Limits, m: nat)
    requires NetOk(n) && LeastBounds(n, Gray, l) && m < |n.g.models|
    ensures Le(Fin(n.g.models[m].k), l.m[m])
  {
    hide ForwardsOk, BackwardsOk, GraphOk, Derives, ModelDerives, Penalty, SubCosts;
    if l.m[m].Fin? {
      var d: Deriv :| d.By? && d.m == m && ModelDerives(n, Gray, d) && CostOf(n, Gray, d) == l.m[m].r;
      ModelFine(n, m);
      CostUnfolds(n, Gray, d);
      DerivSNonNeg(n, d);
      CostfAtLeast(n.g.models[m].k, n.g.models[m].c, Fin(DerivS(n, Gray, d)));
    }
  }

  lemma DerivSNonNeg(n: Net, d: Deriv)
    requires NetOk(n) && d.By? && ModelDerives(n, Gray, d)
    ensures DerivS(n, Gray, d) >= 0.0
  {
    hide NetOk;
  }

  /** Pruning keeps every optimum: whatever the true costs of the whole graph are, as long as they are grounded,
      they are true costs of the selected graph, and its gray bounds may be used to start from. */
  lemma PruningKeepsOptima(p: Problem, f: Flags, k: Bounded, f': Flags, t: Truth, rank: Ref -> nat, p': Problem)
    requires Worlds(p, f, k, f', t, p') && Grounded(p, StartNet(p.g, f), t, rank)
    ensures WellFormed(p') && IsSolution(p', Left(p', f', t)) && SolverState.StartBounds(p', Left(p', f', t))
    ensures forall x: Ref :: IsSel(f', V(x.idx)) ==> Left(p', f', t).v(x) == t.v(x)
    ensures Bracketed(p, k, t)
  {
    hide LeastBounds, KeptFinite, SelectedExactly, NetOk, ForwardsOk, BackwardsOk, SimpleMaps, FullSolution, Rebuilt,
        Grounded, WellFormed, IsSolution;
    Between(p, f, k, f', t, rank);
    LeftSolves(p, f, k, f', t, p');
    GrayStarts(p, f, k, f', t, p');
  }

  // ---------- graphs without cycles of free models ----------

  lemma {:induction false} ParamCheaper(p: Problem, t: Truth, m: Ref, e: nat, j: nat)
    requires GraphOk(p.g) && IsModel(p, m) && ModelEquation(p, t, m) && t.m(m).Fin? && IsParam(p, m, e, j)
    ensures Le(t.v(ParamRef(p, m, e, j)), t.m(m))
    ensures ModelOf(p, m).k > 0.0 ==> Lt(t.v(ParamRef(p, m, e, j)), t.m(m))
  {
    assert ModelOk(p.g, ModelOf(p, m));
    MaxCostAtLeast(p, t, m, e, |ParamInsts(p, m, e)|, j);
    ParamSumMono(p, t, m, e, 0);
    CostfAtLeast(ModelOf(p, m).k, ModelOf(p, m).c, ExactS(p, t, m));
    hide GraphOk, Penalties, MaxCost, Costf;
  }

  ghost function OrderOf(p: Problem, t: Truth, xs: set<Ref>, order: nat -> nat, b: nat, x: Ref): nat {
    Product(|CheaperThan(p, t, xs, x)|, b) + order(x.idx)
  }

  /** By cost, and by `order`, which stays below `b`, among equally costly variables. */
  ghost function OrderRank(p: Problem, t: Truth, xs: set<Ref>, order: nat -> nat, b: nat): Ref -> nat {
    (x: Ref) => OrderOf(p, t, xs, order, b, x)
  }

  lemma RankDrops(p: Problem, t: Truth, xs: set<Ref>, order: nat -> nat, b: nat, x: Ref, y: Ref)
    requires y in xs && Le(t.v(y), t.v(x)) && order(y.idx) < b && (Lt(t.v(y), t.v(x)) || order(y.idx) < order(x.idx))
    ensures OrderRank(p, t, xs, order, b)(y) < OrderRank(p, t, xs, order, b)(x)
  {
    if Lt(t.v(y), t.v(x)) {
      FewerCheaper(p, t, xs, x, y);
      hide CheaperThan;
      ManyTimes(|CheaperThan(p, t, xs, y)|, |CheaperThan(p, t, xs, x)|, b);
    } else {
      assert CheaperThan(p, t, xs, y) == CheaperThan(p, t, xs, x);
    }
  }

  lemma {:induction false} OrderBound(order: nat -> nat, n: nat) returns (b: nat)
    ensures forall x: nat :: x < n ==> order(x) < b
  {
    b := 0;
    if n > 0 {
      var c := OrderBound(order, n - 1);
      b := if order(n - 1) < c then c else order(n - 1) + 1;
    }
  }

  /** If free models do not form a cycle, all true costs are grounded. */
  lemma OrderedGrounded(p: Problem, n: Net, t: Truth, xs: set<Ref>, order: nat -> nat) returns (rank: Ref -> nat)
    requires WellFormed(p) && NetOk(n) && n.g == p.g && FullSolution(p, n, t) && FreeOrdered(n, order)
    requires forall x :: x in xs <==> IsVar(p, x)
    ensures Grounded(p, n, t, rank)
  {
    hide GraphOk, ForwardsOk, BackwardsOk, OrderRank, ModelEquation, FreeOrdered;
    var b := OrderBound(order, |p.g.vars|);
    rank := OrderRank(p, t, xs, order, b);
    forall x: Ref | IsVar(p, x) && !n.given[x.idx] && t.v(x).Fin?
      ensures exists ei: nat, i: nat :: GroundedBy(p, t, rank, x, ei, i)
    {
      assert Cheapest(p, t, x);
      var ei: nat, i: nat :| IsCand(p, x, ei, i) && t.m(CandRef(p, x, ei, i)) == t.v(x);
      var m := CandRef(p, x, ei, i);
      forall e: nat, j: nat | IsParam(p, m, e, j)
        ensures rank(ParamRef(p, m, e, j)) < rank(x)
      {
        ParamCheaper(p, t, m, e, j);
        FreeParam(p, n, order, x, ei, i, e, j);
        RankDrops(p, t, xs, order, b, x, ParamRef(p, m, e, j));
      }
      assert GroundedBy(p, t, rank, x, ei, i);
    }
  }

  /** What a free candidate takes is ordered before what it returns. */
  lemma FreeParam(p: Problem, n: Net, order: nat -> nat, x: Ref, ei: nat, i: nat, e: nat, j: nat)
    requires NetOk(n) && n.g == p.g && FreeOrdered(n, order) && IsCand(p, x, ei, i) && IsModel(p, CandRef(p, x, ei, i))
    requires IsParam(p, CandRef(p, x, ei, i), e, j) && !n.skipM[CandRef(p, x, ei, i).idx]
    ensures var m := CandRef(p, x, ei, i); ModelOf(p, m).k > 0.0 || order(ParamRef(p, m, e, j).idx) < order(x.idx)
  {
    hide GraphOk, ForwardsOk;
    var m := CandRef(p, x, ei, i);
    assert HasEdge(p.g.models[m.idx].rets, x.idx);
    var l :| 0 <= l < |p.g.models[m.idx].rets| && p.g.models[m.idx].rets[l].idx == x.idx;
    assert ModelOf(p, m).k > 0.0 || order(p.g.models[m.idx].params[e].idx) < order(p.g.models[m.idx].rets[l].idx);
  }

  // ---------- the whole pipeline ----------

  /** How a request for a retained variable ends. `NotBuilt`: a selected model checks a variable that was
      pruned. `GaveUp`: the solver met a cycle, or its stacks overflowed. */
  datatype Answer = Exactly(cost: Cost, value: Value) | TooDear | Refusal(at: Node) | NotBuilt
    | GaveUp(why: SolverState.Outcome)

  /** What the caller provides: a graph with simple maps, flags, and its true costs, wherever these come from. */
  ghost predicate Request(p: Problem, f: Flags, t: Truth, rank: Ref -> nat, root: Ref) {
    && WellFormed(p) && Values.EdgesOk(p) && SimpleMaps(p) && ForwardsOk(p.g) && BackwardsOk(p.g) && FlagsFit(p.g, f)
    && Unselects(f)
    && NetOk(StartNet(p.g, f)) && FullSolution(p, StartNet(p.g, f), t) && Grounded(p, StartNet(p.g, f), t, rank)
    && IsVar(p, root) && f.v[root.idx].select
  }

  /** Prunes the graph, builds what is left, and solves for `root` there, starting from the gray bounds: the answer
      is the true cost in the whole graph, with a value that comes along cheapest chains of the whole graph. */
  method PruneAndSolve(p: Problem, f: Flags, root: Ref, ghost t: Truth, ghost rank: Ref -> nat) returns (r: Answer)
    requires Request(p, f, t, rank, root)
    ensures r.Exactly? ==> r.cost == t.v(root) && Le(r.cost, Fin(MAX_COST))
    ensures r.Exactly? ==> Evaluates(p, t, FlaggedGiven(f), root, r.value)
    ensures r.TooDear? ==> Lt(Fin(MAX_COST), t.v(root))
    ensures r.Refusal? ==> Refused(p.g, f, r.at)
    ensures r.Refusal? <==> Refuses(p.g, f)
    ensures r.Refusal? <==> Clash(f) || Wanting(p.g, f)
    ensures r.Refusal? ==> Blames(p.g, f, r.at)
    ensures r.NotBuilt? <==> !Refuses(p.g, f) && LosesCheck(p.g, f)
    ensures r.GaveUp? ==> Overtaxed(p, root, r.why)
  {
    hide WellFormed, SimpleMaps, ForwardsOk, BackwardsOk, Unselects, NetOk, FullSolution, Grounded, Pruned, Refused,
        IsSolution, Prune.Idle, Values.EdgesOk, Rebuilt, SolverState.StartBounds, Left, Refuses, LosesCheck, Overtaxed,
        KeptVar, KeptModel, Wanting, Clash, Blames;
    FormedGraph(p);
    SimpleParams(p);
    var prune := new Prune(p.g, f);
    var res := prune.Run();
    if res.NoChain? {
      RefusedHasReason(p.g, f, res.at);
      RefusesMeans(p.g, f);
      RefusedBlames(p.g, f, res.at);
      return Refusal(res.at);
    }
    var k := prune.Bounds();
    var f' := prune.Now();
    PrunedFacts(p, f, k, f', t);
    PrunedNotRefused(p.g, f, k, f');
    PrunedMeans(p.g, f, k, f');
    GoneIfLost(p, f, k, f', t);
    var p', ok := Rebuild.LeftProblem(p, k, f');
    if !ok {
      return NotBuilt;
    }
    r := SolveLeft(p, f, k, f', p', root, t, rank);
  }

  lemma PrunedFacts(p: Problem, f: Flags, k: Bounded, f': Flags, t: Truth)
    requires WellFormed(p) && SimpleMaps(p) && ForwardsOk(p.g) && BackwardsOk(p.g) && FlagsFit(p.g, f)
    requires NetOk(StartNet(p.g, f)) && Pruned(p.g, f, k, f') && FullSolution(p, StartNet(p.g, f), t)
    ensures |k.gray.m| == |p.g.models| && forall m :: 0 <= m < |p.g.models| && KeptModel(f', m) ==> k.gray.m[m].Fin?
  {
    hide WellFormed, SimpleMaps, ForwardsOk, BackwardsOk, NetOk, FullSolution, LeastBounds, SelectedExactly, KeptFinite;
    forall m | 0 <= m < |p.g.models| && KeptModel(f', m)
      ensures k.gray.m[m].Fin?
    {
      SelectedModelFinite(p, f, k, f', t, m);
    }
  }

  /** Retained variables are selected. */
  lemma RetainedSelected(p: Problem, f: Flags, k: Bounded, f': Flags, t: Truth, x: nat)
    requires Scene(p, f, k, f', t) && x < |p.g.vars| && f.v[x].select
    ensures IsSel(f', V(x))
  {
    hide WellFormed, SimpleMaps, ForwardsOk, BackwardsOk, NetOk, FullSolution, LeastBounds, KeptFinite, Leads, Returns,
        Succ;
    LeadsSelf(k, V(x));
    assert IsRoot(f, V(x));
    assert RootLeads(k, f, V(x));
  }

  /** What the solver has to be told about the selected graph. */
  lemma LeftReady(p: Problem, f: Flags, k: Bounded, f': Flags, p': Problem, root: Ref, t: Truth, rank: Ref -> nat)
    requires Request(p, f, t, rank, root) && Pruned(p.g, f, k, f') && |k.gray.m| == |p.g.models|
    requires Rebuilt(p, k, f', p')
    ensures WellFormed(p') && Values.EdgesOk(p') && IsSolution(p', Left(p', f', t))
    ensures SolverState.StartBounds(p', Left(p', f', t))
    ensures IsVar(p', root) && Left(p', f', t).v(root) == t.v(root) && (Given(p'.g, root.idx) ==> t.v(root) == Fin(0.0))
  {
    hide SimpleMaps, ForwardsOk, BackwardsOk, NetOk, Grounded, IsSolution, Pruned, Rebuilt, SolverState.StartBounds,
        Left, WellFormed, Values.EdgesOk;
    var n := StartNet(p.g, f);
    PruningKeepsOptima(p, f, k, f', t, rank, p');
    WorldFits(p, f, k, f', t, p');
    EdgesKept(p, k, f', p');
    SameSpaces(p, k, f', p');
    RetainedSelected(p, f, k, f', t, root.idx);
    GivenKept(p, f, k, f', t, p', root.idx);
    if f.v[root.idx].given {
      assert n.given[root.idx];
    }
  }

  /** Why the solver may give up: a cycle, or a chain of dependencies that does not fit its stacks. */
  ghost predicate Overtaxed(p: Problem, root: Ref, why: SolverState.Outcome)
    requires WellFormed(p)
  {
    (why.Cycle? && !Acyclic(p)) || (why.TooDeep? && Depths.Deep(p, root))
  }

  lemma GiveUpFacts(p: Problem, f: Flags, k: Bounded, f': Flags, p': Problem, root: Ref, t: Truth, rank: Ref -> nat,
      why: SolverState.Outcome)
    requires Request(p, f, t, rank, root) && Pruned(p.g, f, k, f') && |k.gray.m| == |p.g.models|
    requires Rebuilt(p, k, f', p')
    requires WellFormed(p') && ((why.Cycle? && !Acyclic(p')) || (why.TooDeep? && Depths.Deep(p', root)))
    ensures Overtaxed(p, root, why)
  {
    hide SimpleMaps, ForwardsOk, BackwardsOk, NetOk, Grounded, Pruned, Rebuilt, WellFormed, Values.EdgesOk, Acyclic,
        Depths.Deep, FullSolution;
    WorldFits(p, f, k, f', t, p');
    if why.Cycle? {
      if Acyclic(p) {
        LeftAcyclic(p, k, f', p');
      }
    } else {
      LeftDeep(p, k, f', p', root);
    }
  }

  method SolveLeft(p: Problem, f: Flags, k: Bounded, f': Flags, p': Problem, root: Ref, ghost t: Truth,
      ghost rank: Ref -> nat) returns (r: Answer)
    requires Request(p, f, t, rank, root) && Pruned(p.g, f, k, f') && |k.gray.m| == |p.g.models|
    requires Rebuilt(p, k, f', p')
    ensures r.Exactly? ==> r.cost == t.v(root) && Le(r.cost, Fin(MAX_COST))
    ensures r.Exactly? ==> Evaluates(p, t, FlaggedGiven(f), root, r.value)
    ensures r.TooDear? ==> Lt(Fin(MAX_COST), t.v(root))
    ensures !r.Refusal? && !r.NotBuilt?
    ensures r.GaveUp? ==> Overtaxed(p, root, r.why)
  {
    hide Request, Pruned, Rebuilt, WellFormed, Values.EdgesOk, IsSolution, SolverState.StartBounds, Left,
        Solver.ChainSolver.Inv, Acyclic, Depths.Deep, Overtaxed;
    LeftReady(p, f, k, f', p', root, t, rank);
    var solver := new Solver.ChainSolver(p', Left(p', f', t));
    var roots := [SolverState.Root(root.idx, root.inst, root.inst + 1)];
    OneRoot(root);
    var out := solver.Solve(roots);
    match out
    case Solved =>
      RootPlan(p, f, k, f', p', root, t, rank, solver);
      r := Exactly(if |p'.g.vars[root.idx].models| == 0 then Fin(0.0) else solver.vsp[root].cost, solver.val[root]);
    case Unsolvable => r := TooDear;
    case _ =>
      GiveUpFacts(p, f, k, f', p', root, t, rank, out);
      r := GaveUp(out);
  }

  lemma OneRoot(root: Ref)
    ensures var roots := [SolverState.Root(root.idx, root.inst, root.inst + 1)];
      && SolverState.Single(roots) && SolverState.InRoots(roots, 0, root.inst)
      && forall k, i :: SolverState.InRoots(roots, k, i) ==> k == 0 && i == root.inst
  {
  }

  /** The value that the solver has for the root comes along cheapest chains of the whole graph. */
  lemma RootPlan(p: Problem, f: Flags, k: Bounded, f': Flags, p': Problem, root: Ref, t: Truth, rank: Ref -> nat,
      s: Solver.ChainSolver)
    requires Request(p, f, t, rank, root) && Pruned(p.g, f, k, f') && |k.gray.m| == |p.g.models|
    requires Rebuilt(p, k, f', p') && s.p == p' && s.t == Left(p', f', t)
    requires s.Inv() && s.RootSolved(root)
    ensures root in s.val && Evaluates(p, t, FlaggedGiven(f), root, s.val[root])
    ensures !Given(p'.g, root.idx) ==> root in s.vsp
  {
    hide WellFormed, Values.EdgesOk, SimpleMaps, ForwardsOk, BackwardsOk, NetOk, Grounded, Pruned, Rebuilt, PlanOk,
        SolverState.InvOf, Values.ValuesOk, Values.Eval, Values.StampsOk, FullSolution, Left;
    WorldOf(p, f, k, f', p', root, t, rank);
    EdgesLeftOk(p, f, k, f', p', root, t, rank);
    RetainedSelected(p, f, k, f', t, root.idx);
    ChainPlanOk(p', s.t, s.lat, s.Now(), s.snaps, s.stamp);
    var plan := ChainPlan(p', s.vsp, s.msp, s.stamp);
    PlanWhole(p, f, k, f', t, p', plan);
    assert OldPlan(p, p', f', plan).on(root) && OldPlan(p, p', f', plan).val(root) == s.val[root];
  }

  lemma WorldOf(p: Problem, f: Flags, k: Bounded, f': Flags, p': Problem, root: Ref, t: Truth, rank: Ref -> nat)
    requires Request(p, f, t, rank, root) && Pruned(p.g, f, k, f') && |k.gray.m| == |p.g.models|
    requires Rebuilt(p, k, f', p')
    ensures Worlds(p, f, k, f', t, p') && Scene(p, f, k, f', t) && root.idx < |p.g.vars| && f.v[root.idx].select
  {
    hide WellFormed, SimpleMaps, ForwardsOk, BackwardsOk, NetOk, FullSolution, LeastBounds, KeptFinite, SelectedExactly,
        Rebuilt, Grounded, Values.EdgesOk;
  }

  lemma EdgesLeftOk(p: Problem, f: Flags, k: Bounded, f': Flags, p': Problem, root: Ref, t: Truth, rank: Ref -> nat)
    requires Request(p, f, t, rank, root) && Pruned(p.g, f, k, f') && |k.gray.m| == |p.g.models|
    requires Rebuilt(p, k, f', p')
    ensures Values.EdgesOk(p) && Values.EdgesOk(p')
  {
    hide Pruned, Rebuilt, WellFormed, Values.EdgesOk, IsSolution, SolverState.StartBounds, Left;
    LeftReady(p, f, k, f', p', root, t, rank);
  }

  /** Unless free models form a cycle, nothing has to be said about where the true costs come from. */
  method PruneAndSolveOrdered(p: Problem, f: Flags, root: Ref, ghost t: Truth, ghost order: nat -> nat)
      returns (r: Answer)
    requires WellFormed(p) && Values.EdgesOk(p) && SimpleMaps(p) && ForwardsOk(p.g) && BackwardsOk(p.g)
    requires FlagsFit(p.g, f) && Unselects(f)
    requires NetOk(StartNet(p.g, f)) && FullSolution(p, StartNet(p.g, f), t) && IsVar(p, root) && f.v[root.idx].select
    requires FreeOrdered(StartNet(p.g, f), order)
    ensures r.Exactly? ==> r.cost == t.v(root) && Le(r.cost, Fin(MAX_COST))
    ensures r.Exactly? ==> Evaluates(p, t, FlaggedGiven(f), root, r.value)
    ensures r.TooDear? ==> Lt(Fin(MAX_COST), t.v(root))
    ensures r.Refusal? ==> Refused(p.g, f, r.at)
    ensures r.Refusal? <==> Refuses(p.g, f)
    ensures r.Refusal? <==> Clash(f) || Wanting(p.g, f)
    ensures r.Refusal? ==> Blames(p.g, f, r.at)
    ensures r.NotBuilt? <==> !Refuses(p.g, f) && LosesCheck(p.g, f)
    ensures r.GaveUp? ==> Overtaxed(p, root, r.why)
  {
    hide WellFormed, SimpleMaps, ForwardsOk, BackwardsOk, Unselects, NetOk, FullSolution, Grounded, Refused,
        Values.EdgesOk, Refuses, LosesCheck, Overtaxed, Wanting, Clash;
    ghost var rank := OrderedGrounded(p, StartNet(p.g, f), t, AllVars(p), order);
    r := PruneAndSolve(p, f, root, t, rank);
  }

  /** If every model costs something, any order will do. */
  lemma PositiveOrdered(n: Net)
    requires |n.skipM| == |n.g.models| && forall m :: 0 <= m < |n.g.models| ==> n.g.models[m].k > 0.0
    ensures FreeOrdered(n, x => 0)
  {
  }
}
