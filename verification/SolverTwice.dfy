/** Two frames may work on the same model: the upper one never comes past the lower one, nor raises the model's bound
    above the threshold of the lower one. */
module SolverTwice {
  import opened Costs
  import opened Graphs
  import opened SolverState
  import opened SolverSteps

  /** `c` is what the walk of frame `f` has come to, at a failing check or at a parameter that is not being solved. */
  ghost predicate Reached(p: Problem, t: Truth, v: VarMap, b: BitMap, f: XState, c: Cost)
    requires GraphOk(p.g)
  {
    && IsModel(p, f.m) && f.where != Candidate
    && (f.where == Shadow ==>
          AtCheck(p, f) && HasBits(b, CheckRef(p, f.m, f.edge, f.it), Failed)
          && Le(c, Fin(Penalties(p, t, f.m, f.edge + 1))))
    && (f.where == Param ==>
          AtParam(p, f) && !Marked(v, ParamRef(p, f.m, f.edge - 1, f.it))
          && Le(c, Add(f.costS, t.v(ParamRef(p, f.m, f.edge - 1, f.it)))))
  }

  /** A working frame. */
  ghost predicate Works(p: Problem, t: Truth, lat: set<Cost>, v: VarMap, mm: ModMap, b: BitMap, f: XState)
    requires GraphOk(p.g)
  {
    f.where != Candidate && FrameOk(p, t, lat, v, f) && InProgress(p, mm, b, f)
  }

  /** A working frame that waits for `y`. */
  ghost predicate Waits(p: Problem, t: Truth, lat: set<Cost>, v: VarMap, mm: ModMap, b: BitMap, g: XState, y: Ref)
    requires GraphOk(p.g)
  {
    && Works(p, t, lat, v, mm, b, g) && Pending(p, b, g) && Marked(v, y) && !Chained(v, y)
    && (g.where == Param ==> AtParam(p, g) && y == ParamRef(p, g.m, g.edge - 1, g.it))
  }

  lemma StackWaits(p: Problem, t: Truth, lat: set<Cost>, s: Search, snaps: seq<ModMap>, k: nat)
    requires InvOf(p, t, lat, s, snaps) && k < |s.stk| - 1
    ensures GraphOk(p.g) && Waits(p, t, lat, s.v, s.m, s.b, s.stk[k], s.stk[k + 1].x)
  {
    hide ModsOk, AllBitsOk, HaveOk, SnapsOk, StartsOk, SeenOk, PastOk, FloorsOk, ShadowProgress, ParamProgress,
        Selected;
    var g, y := s.stk[k], s.stk[k + 1].x;
    assert Waiting(p, g, y, s.stk[k + 1].beta) && FrameOk(p, t, lat, s.v, g) && FrameOk(p, t, lat, s.v, s.stk[k + 1]);
    assert Marked(s.v, y) && VarOk(p, t, lat, s.v, s.m, y);
    assert InProgress(p, s.m, s.b, g) && Pending(p, s.b, g);
  }

  lemma TopWorks(p: Problem, t: Truth, lat: set<Cost>, s: Search, snaps: seq<ModMap>)
    requires InvOf(p, t, lat, s, snaps) && s.stk != [] && s.stk[|s.stk| - 1].where != Candidate
    ensures GraphOk(p.g) && Works(p, t, lat, s.v, s.m, s.b, s.stk[|s.stk| - 1])
  {
    hide VarsOk, ModsOk, AllBitsOk, HaveOk, MarksOk, SnapsOk, StartsOk, SeenOk, PastOk, FloorsOk, FrameOk;
    assert FrameOk(p, t, lat, s.v, s.stk[|s.stk| - 1]);
  }

  /** Both walk the checks: the upper frame is at an earlier one. */
  lemma CheckEarlier(p: Problem, t: Truth, lat: set<Cost>, v: VarMap, mm: ModMap, b: BitMap, g: XState, f: XState,
      y: Ref, c: Cost)
    requires GraphOk(p.g) && Waits(p, t, lat, v, mm, b, g, y) && Works(p, t, lat, v, mm, b, f)
    requires g.m == f.m && g.where == Shadow && f.where == Shadow && Reached(p, t, v, b, f, c)
    ensures f.edge < g.edge
  {
    hide Selected, Penalties;
    PendingNotSeen(p, t, lat, b, g);
    assert !HasBits(b, CheckRef(p, f.m, f.edge, f.it), Passed) && !HasBits(b, CheckRef(p, g.m, g.edge, g.it), Passed);
  }

  lemma ChecksWithin(p: Problem, t: Truth, lat: set<Cost>, v: VarMap, mm: ModMap, b: BitMap, g: XState, f: XState,
      y: Ref, c: Cost)
    requires GraphOk(p.g) && Waits(p, t, lat, v, mm, b, g, y) && Works(p, t, lat, v, mm, b, f)
    requires g.m == f.m && g.where == Shadow && f.where == Shadow && Reached(p, t, v, b, f, c)
    ensures Le(c, Fin(g.betaS))
  {
    CheckEarlier(p, t, lat, v, mm, b, g, f, y, c);
    hide Selected, Penalties, InProgress, Pending, HasBits;
    PenaltiesMono(p, t, f.m, f.edge + 1, g.edge);
  }

  /** The upper frame cannot be at the parameters when the lower one is at a check. */
  lemma NotPast(p: Problem, t: Truth, lat: set<Cost>, v: VarMap, mm: ModMap, b: BitMap, g: XState, f: XState, y: Ref)
    requires GraphOk(p.g) && Waits(p, t, lat, v, mm, b, g, y) && Works(p, t, lat, v, mm, b, f)
    requires g.m == f.m && g.where == Shadow
    ensures f.where == Shadow
  {
    hide Selected, Penalties, ParamProgress;
    PendingNotSeen(p, t, lat, b, g);
  }

  /** The lower frame is at the parameters, and has all penalties. */
  lemma PenaltiesWithin(p: Problem, t: Truth, lat: set<Cost>, v: VarMap, mm: ModMap, b: BitMap, g: XState, f: XState,
      c: Cost)
    requires GraphOk(p.g) && Works(p, t, lat, v, mm, b, g) && Works(p, t, lat, v, mm, b, f)
    requires g.m == f.m && g.where == Param && f.where == Shadow && Reached(p, t, v, b, f, c)
    ensures Le(c, Fin(g.betaS))
  {
    hide Selected, Penalties, InProgress, Pending, HasBits, ParamSum;
    PenaltiesMono(p, t, f.m, f.edge + 1, |ModelOf(p, f.m).checks|);
  }

  /** Both are at the parameters, which are walked downwards: the upper frame is at a later one, or an earlier
      instance of the same. */
  lemma ParamEarlier(p: Problem, t: Truth, lat: set<Cost>, v: VarMap, mm: ModMap, b: BitMap, g: XState, f: XState,
      y: Ref, c: Cost)
    requires GraphOk(p.g) && Waits(p, t, lat, v, mm, b, g, y) && Works(p, t, lat, v, mm, b, f)
    requires g.m == f.m && g.where == Param && f.where == Param && Reached(p, t, v, b, f, c)
    ensures g.edge < f.edge || (g.edge == f.edge && f.it < g.it)
  {
    hide Selected, Penalties, InProgress, Pending, HasBits, ParamSum, MaxCost;
    assert !Chained(v, ParamRef(p, g.m, g.edge - 1, g.it));
  }

  lemma ParamsWithin(p: Problem, t: Truth, lat: set<Cost>, v: VarMap, mm: ModMap, b: BitMap, g: XState, f: XState,
      y: Ref, c: Cost)
    requires GraphOk(p.g) && Waits(p, t, lat, v, mm, b, g, y) && Works(p, t, lat, v, mm, b, f)
    requires g.m == f.m && g.where == Param && f.where == Param && Reached(p, t, v, b, f, c)
    ensures Le(c, Fin(g.betaS))
  {
    ParamEarlier(p, t, lat, v, mm, b, g, f, y, c);
    hide Selected, Penalties, InProgress, Pending, HasBits, ParamsChained, FirstChained;
    if g.edge == f.edge {
      MaxCostAtLeast(p, t, f.m, f.edge - 1, g.it, f.it);
    } else {
      var e := f.edge - 1;
      MaxCostAtLeast(p, t, f.m, e, |ParamInsts(p, f.m, e)|, f.it);
      ParamSumMono(p, t, f.m, e, g.edge);
      assert ParamSum(p, t, f.m, e) == Add(ParamSum(p, t, f.m, f.edge), MaxCost(p, t, f.m, e, |ParamInsts(p, f.m, e)|));
    }
  }

  lemma SameModelWithin(p: Problem, t: Truth, lat: set<Cost>, v: VarMap, mm: ModMap, b: BitMap, g: XState, f: XState,
      y: Ref, c: Cost)
    requires GraphOk(p.g) && Waits(p, t, lat, v, mm, b, g, y) && Works(p, t, lat, v, mm, b, f)
    requires g.m == f.m && Reached(p, t, v, b, f, c)
    ensures IsModel(p, g.m) && Le(Costf(ModelOf(p, g.m).k, ModelOf(p, g.m).c, c), Fin(g.mbeta))
  {
    hide InProgress, Pending, Reached, ShadowProgress, ParamProgress, Costf, InvS;
    if g.where == Shadow {
      NotPast(p, t, lat, v, mm, b, g, f, y);
      ChecksWithin(p, t, lat, v, mm, b, g, f, y, c);
    } else if f.where == Shadow {
      PenaltiesWithin(p, t, lat, v, mm, b, g, f, c);
    } else {
      ParamsWithin(p, t, lat, v, mm, b, g, f, y, c);
    }
    CostfAbove(ModelOf(p, g.m).k, ModelOf(p, g.m).c, g.mbeta, c);
  }

  /** What the top frame has reached raises its model within the thresholds of all others. */
  lemma OthersWithin(p: Problem, t: Truth, lat: set<Cost>, s: Search, snaps: seq<ModMap>, f: XState, c: Cost)
    requires InvOf(p, t, lat, s, snaps) && s.stk != [] && f == s.stk[|s.stk| - 1] && GraphOk(p.g)
    requires Reached(p, t, s.v, s.b, f, c)
    ensures WithinOthers(s.stk, f.m, Costf(ModelOf(p, f.m).k, ModelOf(p, f.m).c, c))
  {
    hide InvOf, Works, Waits, Costf;
    var cost := Costf(ModelOf(p, f.m).k, ModelOf(p, f.m).c, c);
    TopWorks(p, t, lat, s, snaps);
    forall k | 0 <= k < |s.stk| - 1 && s.stk[k].where != Candidate && s.stk[k].m == f.m
      ensures Le(cost, Fin(s.stk[k].mbeta))
    {
      StackWaits(p, t, lat, s, snaps, k);
      SameModelWithin(p, t, lat, s.v, s.m, s.b, s.stk[k], f, s.stk[k + 1].x, c);
    }
  }
}
