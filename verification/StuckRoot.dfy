/** Roots that the solver leaves without a chain: a failed check counts its variable as done, and the chain phase
    then passes it over. */
module StuckRoots {
  import opened Costs
  import opened Graphs
  import opened SolverState
  import opened SolverSeen
  import opened Values
  import opened Depths
  import opened Solver

  /** `b` is the variable of the first failing instance of check `e` of `m`. */
  ghost predicate FailsOn(p: Problem, t: Truth, m: Ref, e: nat, i: nat, b: Ref) {
    && IsCheck(p, m, e, i) && CheckRef(p, m, e, i).idx < |p.g.shadows| && Guarded(p, CheckRef(p, m, e, i)) == b
    && (forall j: nat :: j < i ==> CheckRef(p, m, e, j).idx < |p.g.shadows| && Passes(p, t, CheckRef(p, m, e, j)))
  }

  /** Whatever chain `a` gets, a check on `b` fails first. */
  ghost predicate AlwaysAsks(p: Problem, t: Truth, a: Ref, b: Ref) {
    forall ei: nat, i: nat :: IsCand(p, a, ei, i) ==>
        exists e: nat, j: nat :: FailsOn(p, t, CandRef(p, a, ei, i), e, j, b)
  }

  /** Once `a` has its chain, a variable `b` above the limit on which it always asks is stuck. */
  lemma AskedIsStuck(p: Problem, t: Truth, lat: set<Cost>, s: Search, snaps: seq<ModMap>, a: Ref, b: Ref)
    requires InvOf(p, t, lat, s, snaps) && s.stk == [] && IsVar(p, a) && !Given(p.g, a.idx) && Settled(p, s.v, a)
    requires Lt(t.v(a), Fin(MAX_COST)) && Lt(Fin(MAX_COST), t.v(b)) && AlwaysAsks(p, t, a, b)
    ensures Stuck(p, s.v, b)
  {
    var ei, i, m := ChainOf(p, t, lat, s, snaps, a);
    hide InvOf;
    var e: nat, j: nat :| FailsOn(p, t, m, e, j, b);
    FailedIsStuck(p, t, lat, s, snaps, m, e, j);
  }

  lemma ChainOf(p: Problem, t: Truth, lat: set<Cost>, s: Search, snaps: seq<ModMap>, a: Ref)
      returns (ei: nat, i: nat, m: Ref)
    requires InvOf(p, t, lat, s, snaps) && IsVar(p, a) && !Given(p.g, a.idx) && Settled(p, s.v, a)
    requires Lt(t.v(a), Fin(MAX_COST))
    ensures IsCand(p, a, ei, i) && CandRef(p, a, ei, i) == m && IsModel(p, m) && m in s.m && s.m[m].chain
  {
    hide StackOk, MarksOk, WorkOk, SnapsOk, StartsOk, SeenOk, IsSolution;
    assert VarOk(p, t, lat, s.v, s.m, a);
    ei, m := s.v[a].st.ei, ChainModel(p, a, s.v[a].st);
    i :| IsCand(p, a, ei, i) && CandRef(p, a, ei, i) == m;
  }

  /** A batch never reports a variable as unsolvable on which an earlier, cheap root always asks. */
  lemma NotReported(s: ChainSolver, roots: seq<Root>, j: nat, l: nat, k: nat, i: nat, q: Search, snap: seq<ModMap>)
    requires s.NoChainFor(roots, k, i, q, snap) && InRoots(roots, j, l) && j < k
    requires IsVar(s.p, Ref(roots[j].xi, l)) && !Given(s.p.g, roots[j].xi)
    requires Lt(s.t.v(Ref(roots[j].xi, l)), Fin(MAX_COST))
    ensures !AlwaysAsks(s.p, s.t, Ref(roots[j].xi, l), Ref(roots[k].xi, i))
  {
    hide InvOf, AlwaysAsks;
    if AlwaysAsks(s.p, s.t, Ref(roots[j].xi, l), Ref(roots[k].xi, i)) {
      AskedIsStuck(s.p, s.t, s.lat, q, snap, Ref(roots[j].xi, l), Ref(roots[k].xi, i));
    }
  }

  // ---------- two roots ----------

  const A := Ref(0, 0)
  const B := Ref(1, 0)

  /** Variable 0 has a model that checks variable 1, at penalty 1; the map to the only model of variable 1 is empty. */
  const TWO: Problem := Problem(
    Graph([Var(0, [Edge(0, Ident, 0)], []), Var(0, [Edge(1, User(0), 0)], [])],
          [Model(0, 1.0, 1.0, 1.0, [Check(0, Ident, 1.0)], 0, [], [Edge(0, Ident, 0)]),
           Model(0, 1.0, 1.0, 1.0, [], 0, [], [Edge(1, Ident, 0)])],
          [1]),
    [1], (u, i) => [], w => true, x => 0.0, (m, args) => [[0.0]])

  const COSTS: Truth :=
      Truth((x: Ref) => if x == A then Fin(2.0) else Inf, (m: Ref) => if m.idx == 0 then Fin(2.0) else Fin(1.0))

  lemma TwoGraph()
    ensures GraphOk(TWO.g)
  {
  }

  lemma TwoCand(x: Ref, ei: nat, i: nat)
    requires IsCand(TWO, x, ei, i)
    ensures x == A && ei == 0 && i == 0 && CandRef(TWO, x, ei, i) == Ref(0, 0) && IsModel(TWO, Ref(0, 0))
  {
  }

  lemma TwoReturns()
    ensures ReturnsTo(TWO, A, 0, Ref(0, 0))
  {
    assert 0 in RetInsts(TWO, Ref(0, 0), 0);
  }

  lemma TwoCheck(m: Ref, e: nat, i: nat)
    requires IsCheck(TWO, m, e, i)
    ensures m == Ref(0, 0) && e == 0 && i == 0 && CheckRef(TWO, m, e, i) == Ref(0, 0) && IsShadow(TWO, Ref(0, 0))
  {
  }

  lemma TwoModel(m: Ref)
    requires IsModel(TWO, m)
    ensures m == Ref(0, 0) || m == Ref(1, 0)
    ensures |ModelOf(TWO, m).params| == 0 && |ModelOf(TWO, m).rets| == 1 && RetInsts(TWO, m, 0) == [0]
  {
  }

  lemma TwoFormed()
    ensures WellFormed(TWO) && EdgesOk(TWO)
  {
    TwoGraph();
    TwoReturns();
    forall m: Ref | IsModel(TWO, m)
      ensures |ModelOf(TWO, m).params| == 0 && |ModelOf(TWO, m).rets| == 1 && RetInsts(TWO, m, 0) == [0]
    {
      TwoModel(m);
    }
    forall x: Ref, ei: nat, i: nat | IsCand(TWO, x, ei, i)
      ensures IsModel(TWO, CandRef(TWO, x, ei, i)) && ReturnsTo(TWO, x, ei, CandRef(TWO, x, ei, i))
    {
      TwoCand(x, ei, i);
    }
    forall m: Ref, e: nat, i: nat | IsCheck(TWO, m, e, i)
      ensures IsShadow(TWO, CheckRef(TWO, m, e, i))
    {
      TwoCheck(m, e, i);
    }
    hide GraphOk, IsCand, IsCheck, IsShadow, ReturnsTo, CandRef, CheckRef, ModelOf, IsModel, RetInsts;
  }

  lemma TwoDrops(rv: Ref -> nat, rm: Ref -> nat)
    requires WellFormed(TWO) && rv(A) == 3 && rv(B) == 1 && rm(Ref(0, 0)) == 2
    ensures Ranked(TWO, rv, rm)
  {
    hide WellFormed;
    forall x: Ref, ei: nat, i: nat | IsCand(TWO, x, ei, i)
      ensures rm(CandRef(TWO, x, ei, i)) < rv(x)
    {
      TwoCand(x, ei, i);
    }
    forall m: Ref, e: nat, i: nat | IsCheck(TWO, m, e, i)
      ensures CheckRef(TWO, m, e, i).idx < |TWO.g.shadows| && rv(Guarded(TWO, CheckRef(TWO, m, e, i))) < rm(m)
    {
      TwoCheck(m, e, i);
    }
  }

  lemma TwoRanked()
    requires WellFormed(TWO)
    ensures Acyclic(TWO) && !Deep(TWO, A) && !Deep(TWO, B)
  {
    var rv, rm := (x: Ref) => if x.idx == 0 then 3 as nat else 1, (m: Ref) => if m.idx == 0 then 2 as nat else 0;
    hide WellFormed, Ranked, IsCand, IsCheck, IsParam;
    TwoDrops(rv, rm);
    ShallowFits(TWO, rv, rm, A, 1);
    ShallowFits(TWO, rv, rm, B, 1);
  }

  lemma TwoPenalty()
    requires GraphOk(TWO.g)
    ensures IsModel(TWO, Ref(0, 0)) && ExactS(TWO, COSTS, Ref(0, 0)) == Fin(1.0)
  {
    var m := Ref(0, 0);
    assert IsCheck(TWO, m, 0, 0) && Guarded(TWO, CheckRef(TWO, m, 0, 0)) == B;
    assert CheckFails(TWO, COSTS, m, 0);
    assert Penalties(TWO, COSTS, m, 0) == 0.0;
    assert Penalties(TWO, COSTS, m, 1) == 1.0;
  }

  lemma TwoFree()
    requires GraphOk(TWO.g)
    ensures IsModel(TWO, Ref(1, 0)) && ExactS(TWO, COSTS, Ref(1, 0)) == Fin(0.0)
  {
  }

  lemma TwoVars(x: Ref)
    requires IsVar(TWO, x)
    ensures VarEquation(TWO, COSTS, x)
  {
    assert IsCand(TWO, A, 0, 0) && CandRef(TWO, A, 0, 0) == Ref(0, 0);
    forall ei: nat, i: nat | IsCand(TWO, x, ei, i)
      ensures x == A && CandRef(TWO, x, ei, i) == Ref(0, 0)
    {
      TwoCand(x, ei, i);
    }
    hide IsCand, CandRef;
  }

  lemma TwoAsks()
    ensures AlwaysAsks(TWO, COSTS, A, B)
  {
    assert IsCheck(TWO, Ref(0, 0), 0, 0) && Guarded(TWO, CheckRef(TWO, Ref(0, 0), 0, 0)) == B;
    assert FailsOn(TWO, COSTS, Ref(0, 0), 0, 0, B);
    forall ei: nat, i: nat | IsCand(TWO, A, ei, i)
      ensures CandRef(TWO, A, ei, i) == Ref(0, 0)
    {
      TwoCand(A, ei, i);
    }
    hide FailsOn, IsCand, CandRef;
  }

  lemma TwoCosts()
    requires WellFormed(TWO)
    ensures IsSolution(TWO, COSTS) && StartBounds(TWO, COSTS)
  {
    TwoGraph();
    TwoPenalty();
    TwoFree();
    forall x: Ref | IsVar(TWO, x)
      ensures VarEquation(TWO, COSTS, x)
    {
      TwoVars(x);
    }
    forall m: Ref | IsModel(TWO, m)
      ensures m == Ref(0, 0) || m == Ref(1, 0)
    {
      TwoModel(m);
    }
    hide VarEquation, ExactS, GraphOk, WellFormed;
  }

  /** Asking a fresh solver for both variables ends in a value computation without a chain. */
  method TwoRoots() returns (r: Outcome)
    ensures r == Missing
  {
    hide WellFormed, EdgesOk, IsSolution, StartBounds, Acyclic, Deep, AlwaysAsks, InvOf, ValuesOk;
    TwoFormed();
    TwoRanked();
    TwoCosts();
    TwoAsks();
    var s := new ChainSolver(TWO, COSTS);
    var roots := [Root(0, 0, 1), Root(1, 0, 1)];
    r := s.Solve(roots);
    assert InRoots(roots, 1, 0);
    if k, i, q, snap :| s.NoChainFor(roots, k, i, q, snap) {
      assert InRoots(roots, k, i) && i == 0;
      assert k == 1;
      assert InRoots(roots, 0, 0);
      NotReported(s, roots, 0, 0, 1, 0, q, snap);
    }
  }
}
