/** A request that cannot be built: the retained variable's only model checks a variable that the caller skips. */
module SkippedChecks {
  import opened Costs
  import opened Graphs
  import opened Heaps
  import opened Bounds
  import opened Selection
  import opened Pruner
  import opened Optimum
  import opened PrunedGraph
  import opened Outcomes
  import opened EndToEnd
  import Values

  /** Variable 0 has one model, which checks variable 1 at penalty 1. */
  const LONE: Graph := Graph([Var(0, [Edge(0, Ident, 0)], []), Var(0, [], [])],
                             [Model(0, 1.0, 1.0, 1.0, [Check(0, Ident, 1.0)], 0, [], [Edge(0, Ident, 0)])], [1])

  const PROBLEM: Problem := Problem(LONE, [1], (u, i) => [], w => true, x => 0.0, (m, args) => [[0.0]])

  /** Variable 0 is retained, variable 1 skipped. */
  const FLAGS: Flags := Flags([VarFlags(false, false, true, false, false), VarFlags(false, true, false, false, false)],
                              [ModFlags(false, false, false)])

  const NET: Net := Net(LONE, [false, false], [false, true], [false])

  const ROOT := Ref(0, 0)

  const TRUE_COSTS: Truth := Truth((x: Ref) => if x.idx == 0 then Fin(2.0) else Inf, (m: Ref) => Fin(2.0))

  const LIMITS := Limits([Fin(2.0), Inf], [Fin(2.0)])

  lemma LoneGraph()
    ensures GraphOk(LONE) && ForwardsOk(LONE) && BackwardsOk(LONE)
  {
    assert LONE.vars[0].models[0].idx == 0 && LONE.models[0].rets[0].idx == 0;
  }

  lemma LoneCand(x: Ref, ei: nat, i: nat)
    requires IsCand(PROBLEM, x, ei, i)
    ensures x == ROOT && ei == 0 && i == 0 && CandRef(PROBLEM, x, ei, i) == Ref(0, 0) && IsModel(PROBLEM, Ref(0, 0))
  {
  }

  lemma LoneCheck(m: Ref, e: nat, i: nat)
    requires IsCheck(PROBLEM, m, e, i)
    ensures m == Ref(0, 0) && e == 0 && i == 0 && CheckRef(PROBLEM, m, e, i) == Ref(0, 0)
    ensures IsShadow(PROBLEM, Ref(0, 0))
  {
  }

  lemma LoneModel(m: Ref)
    requires IsModel(PROBLEM, m)
    ensures m == Ref(0, 0) && |ModelOf(PROBLEM, m).params| == 0 && |ModelOf(PROBLEM, m).rets| == 1
    ensures Values.RetInsts(PROBLEM, m, 0) == [0]
  {
  }

  lemma LoneReturns()
    ensures Values.ReturnsTo(PROBLEM, ROOT, 0, Ref(0, 0))
  {
    assert 0 in Values.RetInsts(PROBLEM, Ref(0, 0), 0);
  }

  lemma LoneFormed()
    ensures WellFormed(PROBLEM) && Values.EdgesOk(PROBLEM)
  {
    LoneGraph();
    LoneReturns();
    forall m: Ref | IsModel(PROBLEM, m)
      ensures |ModelOf(PROBLEM, m).params| == 0 && |ModelOf(PROBLEM, m).rets| == 1
      ensures Values.RetInsts(PROBLEM, m, 0) == [0]
    {
      LoneModel(m);
    }
    forall x: Ref, ei: nat, i: nat | IsCand(PROBLEM, x, ei, i)
      ensures IsModel(PROBLEM, CandRef(PROBLEM, x, ei, i))
      ensures Values.ReturnsTo(PROBLEM, x, ei, CandRef(PROBLEM, x, ei, i))
    {
      LoneCand(x, ei, i);
    }
    forall m: Ref, e: nat, i: nat | IsCheck(PROBLEM, m, e, i)
      ensures IsShadow(PROBLEM, CheckRef(PROBLEM, m, e, i))
    {
      LoneCheck(m, e, i);
    }
    hide GraphOk, IsCand, IsCheck, IsShadow, Values.ReturnsTo, CandRef, CheckRef, ModelOf, IsModel, Values.RetInsts;
  }

  lemma LoneNet()
    requires GraphOk(LONE) && ForwardsOk(LONE) && BackwardsOk(LONE)
    ensures FlagsFit(LONE, FLAGS) && Unselects(FLAGS) && StartNet(LONE, FLAGS) == NET && NetOk(NET) && !Clash(FLAGS)
  {
    hide GraphOk, ForwardsOk, BackwardsOk;
    assert !SkipMarked(LONE, FLAGS, 0);
    assert StartNet(LONE, FLAGS).skipM == [false];
    StartNetOk(LONE, FLAGS);
  }

  // ---------- the bounds ----------

  lemma LonePenalty(c: Color)
    requires NetOk(NET)
    ensures Penalty(NET, c, 0, 1) == 1.0
  {
    hide NetOk;
    assert Penalty(NET, c, 0, 0) == 0.0;
  }

  lemma LoneDeriv(c: Color)
    requires NetOk(NET)
    ensures Derives(NET, c, 0, By(0, [])) && ModelDerives(NET, c, By(0, [])) && CostOf(NET, c, By(0, [])) == 2.0
  {
    hide NetOk;
    var d := By(0, []);
    assert NET.g.models[0].rets[0].idx == 0 && Usable(c, NET.g.models[0].rets[0]);
    assert ReturnsVar(NET, c, 0, 0);
    assert ModelDerives(NET, c, d);
    LonePenalty(c);
    assert SubCosts(NET, c, d, 0) == 0.0;
    CostUnfolds(NET, c, d);
  }

  lemma LoneFixpoint(c: Color)
    requires NetOk(NET)
    ensures PreFixpoint(NET, c, LIMITS)
  {
    hide NetOk;
    LonePenalty(c);
    assert BoundSum(NET, c, LIMITS.v, 0, 0) == Fin(0.0);
  }

  lemma LoneBounds()
    requires NetOk(NET) && StartNet(LONE, FLAGS) == NET
    ensures BothLeast(NET, Bounded(LONE, LIMITS, LIMITS))
  {
    hide NetOk, PreFixpoint, Derives, ModelDerives, CostOf;
    LoneDeriv(Gray);
    LoneDeriv(Black);
    LoneFixpoint(Gray);
    LoneFixpoint(Black);
    assert BoundedOk(Bounded(LONE, LIMITS, LIMITS)) by {
      LoneGraph();
    }
  }

  // ---------- the request ----------

  lemma LoneCheapest(x: Ref)
    requires IsVar(PROBLEM, x)
    ensures Cheapest(PROBLEM, TRUE_COSTS, x) && (x.idx == 0 ==> x == ROOT)
  {
    assert IsCand(PROBLEM, ROOT, 0, 0) && CandRef(PROBLEM, ROOT, 0, 0) == Ref(0, 0);
    forall ei: nat, i: nat | IsCand(PROBLEM, x, ei, i)
      ensures x == ROOT && CandRef(PROBLEM, x, ei, i) == Ref(0, 0)
    {
      LoneCand(x, ei, i);
    }
    hide IsCand, CandRef;
  }

  lemma LoneGrounded()
    ensures IsVar(PROBLEM, ROOT) && GroundedBy(PROBLEM, TRUE_COSTS, x => 0, ROOT, 0, 0)
  {
    assert IsCand(PROBLEM, ROOT, 0, 0) && CandRef(PROBLEM, ROOT, 0, 0) == Ref(0, 0);
    hide IsCand, CandRef;
  }

  lemma LoneCosts()
    requires WellFormed(PROBLEM) && NetOk(NET)
    ensures FullSolution(PROBLEM, NET, TRUE_COSTS) && Grounded(PROBLEM, NET, TRUE_COSTS, x => 0)
  {
    hide WellFormed, NetOk, ModelEquation, Cheapest, GroundedBy, IsVar, GraphOk;
    LoneGraph();
    LoneEquation();
    LoneGrounded();
    forall x: Ref | IsVar(PROBLEM, x)
      ensures Cheapest(PROBLEM, TRUE_COSTS, x) && (x.idx == 0 ==> x == ROOT) && x.idx < 2
    {
      LoneCheapest(x);
      LoneVar(x);
    }
    forall m: Ref | IsModel(PROBLEM, m)
      ensures m == Ref(0, 0)
    {
      LoneModel(m);
    }
  }

  lemma LoneVar(x: Ref)
    requires IsVar(PROBLEM, x)
    ensures x.idx < 2
  {
  }

  lemma LoneFails()
    requires GraphOk(LONE)
    ensures IsModel(PROBLEM, Ref(0, 0)) && CheckFails(PROBLEM, TRUE_COSTS, Ref(0, 0), 0)
  {
    hide GraphOk;
    assert IsCheck(PROBLEM, Ref(0, 0), 0, 0) && Guarded(PROBLEM, CheckRef(PROBLEM, Ref(0, 0), 0, 0)).idx == 1;
  }

  lemma LoneExact()
    requires GraphOk(LONE) && IsModel(PROBLEM, Ref(0, 0)) && CheckFails(PROBLEM, TRUE_COSTS, Ref(0, 0), 0)
    ensures ExactS(PROBLEM, TRUE_COSTS, Ref(0, 0)) == Fin(1.0)
  {
    hide GraphOk, CheckFails;
    assert Penalties(PROBLEM, TRUE_COSTS, Ref(0, 0), 0) == 0.0;
    assert Penalties(PROBLEM, TRUE_COSTS, Ref(0, 0), 1) == 1.0;
  }

  lemma LoneEquation()
    requires GraphOk(LONE)
    ensures IsModel(PROBLEM, Ref(0, 0)) && ModelEquation(PROBLEM, TRUE_COSTS, Ref(0, 0))
  {
    hide GraphOk, CheckFails, ExactS;
    LoneFails();
    LoneExact();
  }

  lemma LoneLost(k: Bounded)
    requires GraphOk(LONE) && k == Bounded(LONE, LIMITS, LIMITS) && BoundedOk(k)
    ensures KeptFinite(k, FLAGS) && LostAt(k, FLAGS, 0, 0)
  {
    hide BoundedOk, Leads;
    assert NeedBeta(k, 0, 0);
    assert Picked(k, 0, 0);
    assert PickedAt(k, 0, 0, 0);
    assert Succ(k, V(0), M(0));
    LeadsSelf(k, M(0));
    LeadsCons(k, V(0), M(0), M(0));
    assert IsRoot(FLAGS, V(0));
    assert RootLeads(k, FLAGS, M(0));
  }

  /** Pruning succeeds, but what is left cannot be built, though variable 0 costs 2. */
  method SkippedCheck() returns (r: Answer)
    ensures r == NotBuilt
  {
    hide WellFormed, Values.EdgesOk, GraphOk, ForwardsOk, BackwardsOk, NetOk, FullSolution, Grounded, BothLeast,
        KeptFinite, LostAt, Clash;
    LoneGraph();
    LoneFormed();
    LoneNet();
    LoneBounds();
    LoneCosts();
    ghost var k := Bounded(LONE, LIMITS, LIMITS);
    LeastFits(NET, k);
    LoneLost(k);
    assert LosesCheck(LONE, FLAGS);
    NotRefused(k);
    r := PruneAndSolve(PROBLEM, FLAGS, ROOT, TRUE_COSTS, x => 0);
  }

  lemma LeastFits(n: Net, k: Bounded)
    requires BothLeast(n, k)
    ensures BoundedOk(k)
  {
  }

  lemma NotRefused(k: Bounded)
    requires GraphOk(LONE) && ForwardsOk(LONE) && BackwardsOk(LONE) && FlagsFit(LONE, FLAGS)
    requires StartNet(LONE, FLAGS) == NET
    requires BothLeast(NET, k) && BoundedOk(k) && KeptFinite(k, FLAGS) && !Clash(FLAGS)
    ensures !Refuses(LONE, FLAGS)
  {
    hide GraphOk, ForwardsOk, BackwardsOk, LeastBounds, NetOk, BoundedOk, KeptFinite, Clash;
    if k' :| BothLeast(NET, k') && !KeptFinite(k', FLAGS) {
      BoundsUnique(NET, k, k');
    }
  }
}
