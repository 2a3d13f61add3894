/** Why the costs that the solver stores are lower bounds, and exact once a chain is found. */
module SolverExact {
  import opened Costs
  import opened Graphs
  import opened Closure
  import opened SolverState
  import opened SolverPast
  import opened SolverSteps
  import opened SolverTwice
  import opened Values

  /** `s` is a lower bound of the inverse cost of the frame's model and lies above its threshold. */
  ghost predicate OverThreshold(p: Problem, t: Truth, lat: set<Cost>, f: XState, s: Cost)
    requires GraphOk(p.g)
  {
    IsModel(p, f.m) && Lt(Fin(f.betaS), s) && Stored(lat, s) && Le(Fin(0.0), s) && Le(s, ExactS(p, t, f.m))
  }

  lemma RaisedBound(p: Problem, t: Truth, lat: set<Cost>, v: VarMap, f: XState, s: Cost)
    requires Setup(p, t, lat) && FrameOk(p, t, lat, v, f) && f.where != Candidate && OverThreshold(p, t, lat, f, s)
    ensures var m := ModelOf(p, f.m); var cost := Costf(m.k, m.c, s);
            Lt(Fin(f.mbeta), cost) && Le(cost, t.m(f.m)) && Stored(lat, cost) && Le(Fin(m.k), cost)
  {
    var m := ModelOf(p, f.m);
    assert ModelOk(p.g, m) && ModelEquation(p, t, f.m);
    StoredImage(p, lat, f.m.idx, s);
    CostfMono(m.k, m.c, s, ExactS(p, t, f.m));
    CostfAtLeast(m.k, m.c, s);
    CostfAbove(m.k, m.c, f.mbeta, s);
    hide Costf, InvS, ExactS, WellFormed, IsSolution, Closed, Stored;
  }

  /** A raised bound leaves fewer bounds to reach than when the candidate was selected. */
  lemma SettleShrinks(p: Problem, t: Truth, lat: set<Cost>, s: Search, snaps: seq<ModMap>, f: XState, sp: ModSp)
    requires InvOf(p, t, lat, s, snaps) && s.stk != [] && f == s.stk[|s.stk| - 1] && f.where != Candidate
    requires IsModel(p, f.m) && f.mbeta <= MAX_COST && Lt(Fin(f.mbeta), sp.cost) && |snaps| == |s.stk|
    ensures LessRank(FrameRank(p, lat, s.m[f.m := sp], snaps[|s.stk| - 1], f.(where := Candidate)),
                     FrameRank(p, lat, s.m, snaps[|s.stk| - 1], f))
  {
    hide StateOk, StackOk, WorkOk, MarksOk, Todo;
    var snap := snaps[|s.stk| - 1];
    BelowRaised(snap, s.m, f.m, sp);
    TodoShrinks(lat, snap, s.m[f.m := sp], f.m);
  }

  lemma ModRaised(p: Problem, t: Truth, lat: set<Cost>, s: Search, snaps: seq<ModMap>, m: Ref, cost: Cost)
    requires InvOf(p, t, lat, s, snaps) && IsModel(p, m)
    requires Le(Fin(ModelOf(p, m).k), cost) && Le(cost, t.m(m)) && Stored(lat, cost)
    ensures ModOk(p, t, lat, s.v, s.m[m := ModSp(cost, false)], m)
  {
  }

  /** Everything `x_bound` relies on. */
  lemma BoundFacts(p: Problem, t: Truth, lat: set<Cost>, s: Search, snaps: seq<ModMap>, f: XState, c: Cost)
    requires InvOf(p, t, lat, s, snaps) && s.stk != [] && f == s.stk[|s.stk| - 1] && f.where != Candidate
    requires GraphOk(p.g) && OverThreshold(p, t, lat, f, c) && Reached(p, t, s.v, s.b, f, c)
    ensures IsModel(p, f.m)
    ensures var m := ModelOf(p, f.m); var cost := Costf(m.k, m.c, c);
            var mm := s.m[f.m := ModSp(cost, false)]; var g := f.(where := Candidate);
            && f.m in s.m && !s.m[f.m].chain && Le(s.m[f.m].cost, Fin(f.mbeta)) && Lt(Fin(f.mbeta), cost)
            && |snaps| == |s.stk|
            && InvOf(p, t, lat, s.(m := mm, stk := SetTop(s.stk, g)), snaps)
            && LessRank(FrameRank(p, lat, mm, snaps[|s.stk| - 1], g), FrameRank(p, lat, s.m, snaps[|s.stk| - 1], f))
  {
    hide InvOf, Setup, Costf, OverThreshold, FrameRank, LessRank, ModOk, Reached, WithinOthers;
    TopFacts(p, t, lat, s, snaps, f);
    OthersWithin(p, t, lat, s, snaps, f, c);
    RaisedBound(p, t, lat, s.v, f, c);
    var m := ModelOf(p, f.m);
    var cost := Costf(m.k, m.c, c);
    ModRaised(p, t, lat, s, snaps, f.m, cost);
    TopBelowMax(p, t, f);
    SettleShrinks(p, t, lat, s, snaps, f, ModSp(cost, false));
    Settle(p, t, lat, s, snaps, f, ModSp(cost, false));
  }

  lemma TopBelowMax(p: Problem, t: Truth, f: XState)
    requires GraphOk(p.g) && IsVar(p, f.x) && f.beta <= MAX_COST && Selected(p, t, f)
    ensures f.mbeta <= MAX_COST
  {
  }

  // ---------- walking the checks ----------

  /** The frame moves within the same candidate. */
  predicate SameWork(f: XState, g: XState) {
    f.where != Candidate && g.where != Candidate
    && g == f.(where := g.where, costS := g.costS, edge := g.edge, it := g.it, ssmax := g.ssmax)
  }

  /** The frame's own bookkeeping is right. */
  ghost predicate ProgressOk(p: Problem, t: Truth, lat: set<Cost>, s: Search, f: XState)
    requires GraphOk(p.g) && IsModel(p, f.m)
  {
    && (f.where == Shadow ==> ShadowProgress(p, t, lat, f))
    && (f.where == Param ==> ParamProgress(p, t, lat, s.v, f))
    && InProgress(p, s.m, s.b, f)
  }

  /** Frame `g` is a fine next state of the top frame `f`, and closer to its end. */
  ghost predicate Next(p: Problem, t: Truth, lat: set<Cost>, s: Search, snap: ModMap, f: XState, g: XState)
    requires GraphOk(p.g) && IsModel(p, f.m)
  {
    && SameWork(f, g) && ProgressOk(p, t, lat, s, g)
    && LessRank(FrameRank(p, lat, s.m, snap, g), FrameRank(p, lat, s.m, snap, f))
  }

  /** The facts about the top frame that its own steps need. */
  ghost predicate TopOk(p: Problem, t: Truth, lat: set<Cost>, s: Search, f: XState) {
    && Setup(p, t, lat) && GraphOk(p.g) && Closed(p.g, lat) && Fin(0.0) in lat && f.where != Candidate
    && IsModel(p, f.m) && ModelOk(p.g, ModelOf(p, f.m))
    && f.betaS <= MAX_COST && ProgressOk(p, t, lat, s, f)
  }

  lemma ThresholdSmall(p: Problem, t: Truth, f: XState)
    requires GraphOk(p.g) && IsVar(p, f.x) && Selected(p, t, f) && 0.0 <= f.beta <= MAX_COST
    requires f.betaS >= 0.0
    ensures f.betaS <= MAX_COST
  {
    var m := ModelOf(p, f.m);
    assert ModelOk(p.g, m);
    InvSExact(m.k, m.c, f.mbeta, f.betaS);
    MulAtLeast(m.c, f.betaS);
  }

  /** What the invariant says about the frame on top. */
  lemma TopFacts(p: Problem, t: Truth, lat: set<Cost>, s: Search, snaps: seq<ModMap>, f: XState)
    requires InvOf(p, t, lat, s, snaps) && s.stk != [] && f == s.stk[|s.stk| - 1]
    ensures |snaps| == |s.stk| < MAX_STK && Setup(p, t, lat) && FrameOk(p, t, lat, s.v, f)
    ensures f.where != Candidate ==> TopOk(p, t, lat, s, f) && f.m in s.m && !s.m[f.m].chain
    ensures f.where != Candidate ==> Le(s.m[f.m].cost, Fin(f.mbeta))
    ensures f.where != Candidate ==> f.m in snaps[|s.stk| - 1] && Le(snaps[|s.stk| - 1][f.m].cost, Fin(f.mbeta))
  {
    hide VarsOk, ModsOk, AllBitsOk, HaveOk, FloorsOk, PastOk, SeenOk, MarksOk, StartsOk;
    assert FrameOk(p, t, lat, s.v, f) && InProgress(p, s.m, s.b, f);
    assert Fin(0.0) in Generators(p.g, MAX_COST);
    if f.where != Candidate {
      ThresholdSmall(p, t, f);
    }
  }

  lemma MoveTop(p: Problem, t: Truth, lat: set<Cost>, s: Search, snaps: seq<ModMap>, f: XState, g: XState)
    requires InvOf(p, t, lat, s, snaps) && s.stk != [] && f == s.stk[|s.stk| - 1]
    requires GraphOk(p.g) && IsModel(p, f.m) && SameWork(f, g) && ProgressOk(p, t, lat, s, g)
    ensures |snaps| == |s.stk| && InvOf(p, t, lat, s.(stk := SetTop(s.stk, g)), snaps)
  {
    hide InvOf, Setup, ShadowProgress, ParamProgress, InProgress;
    TopFacts(p, t, lat, s, snaps, f);
    assert FrameOk(p, t, lat, s.v, g);
    Move(p, t, lat, s, snaps, g);
  }

  lemma PassedFrame(p: Problem, t: Truth, lat: set<Cost>, s: Search, snap: ModMap, f: XState)
    requires TopOk(p, t, lat, s, f) && AtCheck(p, f)
    requires HasBits(s.b, CheckRef(p, f.m, f.edge, f.it), Passed) && BitsOk(p, t, s.b, CheckRef(p, f.m, f.edge, f.it))
    ensures Next(p, t, lat, s, snap, f, f.(it := f.it + 1))
  {
    hide Setup;
  }

  lemma CheckDoneFrame(p: Problem, t: Truth, lat: set<Cost>, s: Search, snap: ModMap, f: XState)
    requires TopOk(p, t, lat, s, f) && f.where == Shadow
    requires f.edge < |ModelOf(p, f.m).checks| && f.it == |CheckInsts(p, f.m, f.edge)|
    ensures Next(p, t, lat, s, snap, f, f.(edge := f.edge + 1, it := 0))
  {
    assert GraphOk(p.g);
    hide Setup;
    assert CheckSeen(p, s.b, f.m, f.edge);
    assert !CheckFails(p, t, f.m, f.edge);
  }

  lemma PenaltyFrame(p: Problem, t: Truth, lat: set<Cost>, s: Search, snap: ModMap, f: XState)
    requires TopOk(p, t, lat, s, f) && AtCheck(p, f)
    requires HasBits(s.b, CheckRef(p, f.m, f.edge, f.it), Failed) && BitsOk(p, t, s.b, CheckRef(p, f.m, f.edge, f.it))
    ensures var c := Add(f.costS, Fin(ModelOf(p, f.m).checks[f.edge].penalty));
            if Lt(Fin(f.betaS), c) then OverThreshold(p, t, lat, f, c) && Reached(p, t, s.v, s.b, f, c)
            else Next(p, t, lat, s, snap, f, f.(costS := c, edge := f.edge + 1, it := 0))
  {
    hide WellFormed, IsSolution, Closed, StartBounds, CheckSeen, Penalties, CheckFails, Passes, GraphOk;
    var c := Add(f.costS, Fin(ModelOf(p, f.m).checks[f.edge].penalty));
    PenaltySum(p, t, lat, s, f);
    if Lt(Fin(f.betaS), c) {
      PenaltiesMono(p, t, f.m, f.edge + 1, |ModelOf(p, f.m).checks|);
    } else {
      PenaltySeen(p, s.b, f);
    }
  }

  lemma PenaltySum(p: Problem, t: Truth, lat: set<Cost>, s: Search, f: XState)
    requires TopOk(p, t, lat, s, f) && AtCheck(p, f)
    requires HasBits(s.b, CheckRef(p, f.m, f.edge, f.it), Failed) && BitsOk(p, t, s.b, CheckRef(p, f.m, f.edge, f.it))
    ensures var c := Add(f.costS, Fin(ModelOf(p, f.m).checks[f.edge].penalty));
            Stored(lat, c) && Le(Fin(0.0), c) && c == Fin(Penalties(p, t, f.m, f.edge + 1))
  {
    hide WellFormed, IsSolution, Closed, StartBounds, InProgress, GraphOk;
    assert CheckFails(p, t, f.m, f.edge);
    StoredPenalty(p, lat, f.m, f.edge);
    StoredSum(p, lat, f.costS, Fin(ModelOf(p, f.m).checks[f.edge].penalty));
  }

  lemma PenaltySeen(p: Problem, b: BitMap, f: XState)
    requires AtCheck(p, f) && FirstPassed(p, b, f.m, f.edge, f.it) && HasBits(b, CheckRef(p, f.m, f.edge, f.it), Failed)
    ensures CheckSeen(p, b, f.m, f.edge)
  {
  }

  /** After the last check the computed parameters follow. */
  lemma ParamsFrame(p: Problem, t: Truth, lat: set<Cost>, s: Search, snap: ModMap, f: XState)
    requires TopOk(p, t, lat, s, f) && f.where == Shadow && f.edge == |ModelOf(p, f.m).checks|
    ensures Next(p, t, lat, s, snap, f, f.(where := Param, edge := ModelOf(p, f.m).cparam, it := 0, ssmax := Fin(0.0)))
  {
    hide Setup, Closed, ChecksSeen;
    NoGivenCost(p, t, lat, f.m);
  }

  lemma NoGivenCost(p: Problem, t: Truth, lat: set<Cost>, m: Ref)
    requires Setup(p, t, lat) && IsModel(p, m)
    ensures ModelOf(p, m).cparam <= |ModelOf(p, m).params| && ParamSum(p, t, m, ModelOf(p, m).cparam) == Fin(0.0)
  {
    assert ModelOk(p.g, ModelOf(p, m));
    GivenSum(p, t, m, ModelOf(p, m).cparam);
  }

  // ---------- walking the parameters ----------

  /** A stored bound of a parameter instance that pushes `S` over the threshold. */
  lemma ParamOver(p: Problem, t: Truth, lat: set<Cost>, s: Search, f: XState, c: Cost)
    requires TopOk(p, t, lat, s, f) && AtParam(p, f)
    requires Stored(lat, c) && Le(c, t.v(ParamRef(p, f.m, f.edge - 1, f.it)))
    requires Lt(Fin(f.betaS), Add(f.costS, c))
    ensures OverThreshold(p, t, lat, f, Add(f.costS, c))
    ensures !Marked(s.v, ParamRef(p, f.m, f.edge - 1, f.it)) ==> Reached(p, t, s.v, s.b, f, Add(f.costS, c))
  {
    StoredNonNeg(p, lat, c);
    StoredSum(p, lat, f.costS, c);
    hide Setup;
    var e := f.edge - 1;
    MaxCostAtLeast(p, t, f.m, e, |ParamInsts(p, f.m, e)|, f.it);
    ParamSumMono(p, t, f.m, e, 0);
  }

  /** An exact parameter instance within the threshold. */
  lemma ParamWithin(p: Problem, t: Truth, lat: set<Cost>, s: Search, snap: ModMap, f: XState, c: Cost)
    requires TopOk(p, t, lat, s, f) && AtParam(p, f)
    requires Chained(s.v, ParamRef(p, f.m, f.edge - 1, f.it)) && c == t.v(ParamRef(p, f.m, f.edge - 1, f.it))
    requires c in lat && Le(Add(f.costS, c), Fin(f.betaS))
    ensures Next(p, t, lat, s, snap, f, f.(ssmax := Max(f.ssmax, c), it := f.it + 1))
  {
    hide Setup, Closed, ChecksSeen, ParamsChained, Chained;
    StoredNonNeg(p, lat, c);
    assert MaxCost(p, t, f.m, f.edge - 1, f.it + 1) == Max(f.ssmax, c);
    StoredSum(p, lat, f.costS, Max(f.ssmax, c));
  }

  lemma ParamDoneFrame(p: Problem, t: Truth, lat: set<Cost>, s: Search, snap: ModMap, f: XState)
    requires TopOk(p, t, lat, s, f) && f.where == Param && f.edge > 0
    requires f.edge <= |ModelOf(p, f.m).params| && f.it == |ParamInsts(p, f.m, f.edge - 1)|
    ensures Next(p, t, lat, s, snap, f,
        f.(costS := Add(f.costS, f.ssmax), edge := f.edge - 1, it := 0, ssmax := Fin(0.0)))
  {
    hide Setup, Closed, ChecksSeen, ParamsChained, FirstChained;
    if f.edge > 1 {
      NoneChained(p, s.v, f.m, f.edge - 2);
    }
    ParamsChainedMore(p, s.v, f.m, f.edge - 1);
    assert ParamSum(p, t, f.m, f.edge - 1) == Add(ParamSum(p, t, f.m, f.edge), f.ssmax);
  }

  lemma NoneChained(p: Problem, v: VarMap, m: Ref, e: nat)
    requires IsModel(p, m) && e < |ModelOf(p, m).params|
    ensures FirstChained(p, v, m, e, 0)
  {
  }

  lemma ParamsChainedMore(p: Problem, v: VarMap, m: Ref, e: nat)
    requires IsModel(p, m) && e < |ModelOf(p, m).params|
    requires ParamsChained(p, v, m, e + 1) && FirstChained(p, v, m, e, |ParamInsts(p, m, e)|)
    ensures ParamsChained(p, v, m, e)
  {
  }

  // ---------- evaluating checks ----------

  /** What `S_checkscan` makes of the state bits: it only ever sets bits. */
  function Scanned(guard: bool, old_: Bits): Bits {
    if guard || old_.Passed? then Passed else Failed
  }

  /** The check of a variable that has a value passes exactly if its guard holds. */
  lemma ReadyPasses(p: Problem, t: Truth, lat: set<Cost>, s: Search, snaps: seq<ModMap>, w: Ref)
    requires InvOf(p, t, lat, s, snaps) && IsShadow(p, w) && Guarded(p, w) in s.have
    ensures w in s.b && (Passes(p, t, w) <==> p.guard(w))
    ensures !s.b[w].Unevaluated? ==> s.b[w] == if p.guard(w) then Passed else Failed
  {
    var x := Guarded(p, w);
    assert BitsOk(p, t, s.b, w) && VarOk(p, t, lat, s.v, s.m, x) && VarEquation(p, t, x);
    hide StackOk, WorkOk, MarksOk, SnapsOk, Closed;
  }

  lemma NoneWaits(p: Problem, t: Truth, lat: set<Cost>, s: Search, snaps: seq<ModMap>, x: Ref)
    requires InvOf(p, t, lat, s, snaps) && x in s.have
    ensures forall k :: 0 <= k < |s.stk| ==> s.stk[k].x != x
  {
    hide InvOf;
    forall k | 0 <= k < |s.stk|
      ensures s.stk[k].x != x
    {
      MarkedNotReady(p, t, lat, s, snaps, k, x);
    }
  }

  lemma ScanFacts(p: Problem, t: Truth, lat: set<Cost>, s: Search, snaps: seq<ModMap>, w: Ref)
    requires InvOf(p, t, lat, s, snaps) && IsShadow(p, w) && Guarded(p, w) in s.have
    ensures w in s.b
    ensures InvOf(p, t, lat, s.(b := s.b[w := Scanned(p.guard(w), s.b[w])]), snaps)
    ensures Scanned(p.guard(w), s.b[w]) == (if p.guard(w) then Passed else Failed)
  {
    hide InvOf;
    ReadyPasses(p, t, lat, s, snaps, w);
    NoneWaits(p, t, lat, s, snaps, Guarded(p, w));
    if s.b[w].Unevaluated? {
      HaveEnding(p, t, lat, s, snaps, Guarded(p, w));
      BitChange(p, t, lat, s, snaps, w, Scanned(p.guard(w), s.b[w]));
    } else {
      assert s.b[w := s.b[w]] == s.b;
    }
  }

  lemma HaveEnding(p: Problem, t: Truth, lat: set<Cost>, s: Search, snaps: seq<ModMap>, x: Ref)
    requires InvOf(p, t, lat, s, snaps) && x in s.have
    ensures Ending(p, s.v, s.stk, x)
  {
    hide Setup, VarsOk, ModsOk, AllBitsOk, StackOk, MarksOk, WorkOk, SnapsOk, StartsOk, SeenOk, AtLimit;
  }

  /** A variable on the stack has no value. */
  lemma MarkedNotReady(p: Problem, t: Truth, lat: set<Cost>, s: Search, snaps: seq<ModMap>, k: nat, x: Ref)
    requires InvOf(p, t, lat, s, snaps) && k < |s.stk| && x in s.have
    ensures s.stk[k].x != x
  {
    var y := s.stk[k].x;
    assert FrameOk(p, t, lat, s.v, s.stk[k]) && Marked(s.v, y);
    assert VarOk(p, t, lat, s.v, s.m, y);
  }

  /** A failed solve of a checked variable fails the check that waited for it. */
  lemma FailBitFacts(p: Problem, t: Truth, lat: set<Cost>, s: Search, snaps: seq<ModMap>, f: XState, w: Ref)
    requires InvOf(p, t, lat, s, snaps) && s.stk != [] && f == s.stk[|s.stk| - 1]
    requires GraphOk(p.g) && AtCheck(p, f) && w == CheckRef(p, f.m, f.edge, f.it) && HasBits(s.b, w, Unevaluated)
    requires Lt(Fin(MAX_COST), t.v(Guarded(p, w))) && Guarded(p, w) in s.v && Lt(Fin(MAX_COST), s.v[Guarded(p, w)].cost)
    requires forall k :: 0 <= k < |s.stk| ==> s.stk[k].x != Guarded(p, w)
    ensures InvOf(p, t, lat, s.(b := s.b[w := Failed]), snaps)
  {
    hide InvOf, Ending;
    FailedEnding(p, s.v, s.stk, Guarded(p, w));
    CheckedShadow(p, t, lat, s, snaps, f);
    BitChange(p, t, lat, s, snaps, w, Failed);
  }

  lemma CheckedShadow(p: Problem, t: Truth, lat: set<Cost>, s: Search, snaps: seq<ModMap>, f: XState)
    requires InvOf(p, t, lat, s, snaps) && GraphOk(p.g) && AtCheck(p, f)
    ensures IsShadow(p, CheckRef(p, f.m, f.edge, f.it))
  {
    hide VarsOk, ModsOk, AllBitsOk, HaveOk, StackOk, MarksOk, WorkOk, SnapsOk, StartsOk, SeenOk;
  }

  lemma FailedEnding(p: Problem, v: VarMap, stk: seq<XState>, x: Ref)
    requires x in v && Lt(Fin(MAX_COST), v[x].cost)
    ensures Ending(p, v, stk, x)
  {
  }

  /** Values are noted for solved and given variables. */
  lemma HaveFacts(p: Problem, t: Truth, lat: set<Cost>, s: Search, snaps: seq<ModMap>, have: set<Ref>)
    requires InvOf(p, t, lat, s, snaps) && forall x :: x in have ==> Known(p, s.v, x)
    ensures InvOf(p, t, lat, s.(have := have), snaps)
  {
  }

  // ---------- solving a variable ----------

  /** `x` may be pushed: the top frame waits for it, or nothing is going on. */
  ghost predicate Target(p: Problem, s: Search, x: Ref, beta: real)
    requires GraphOk(p.g)
  {
    && IsVar(p, x) && !Given(p.g, x.idx) && !Chained(s.v, x) && 0.0 <= beta <= MAX_COST
    && (x in s.v && Done(s.v[x]) ==> beta == MAX_COST)
    && (if s.stk == [] then beta == MAX_COST
        else Waiting(p, s.stk[|s.stk| - 1], x, beta) && Pending(p, s.b, s.stk[|s.stk| - 1]))
  }

  function NewFrame(p: Problem, x: Ref, beta: real, start: nat): XState
    requires IsVar(p, x)
  {
    XState(x, beta, start, CandList(p, x, NumEdges(p, x)), Candidate, Ref(0, 0), 0, 0.0, 0.0, Fin(0.0), 0, 0, Fin(0.0))
  }

  lemma FreshFrameOk(p: Problem, t: Truth, lat: set<Cost>, v: VarMap, x: Ref, beta: real, start: nat)
    requires GraphOk(p.g) && IsVar(p, x) && !Given(p.g, x.idx) && 0.0 <= beta <= MAX_COST
    ensures FrameOk(p, t, lat, v, NewFrame(p, x, beta, start))
  {
  }

  lemma PushFacts(p: Problem, t: Truth, lat: set<Cost>, s: Search, snaps: seq<ModMap>, x: Ref, beta: real, start: nat)
    requires InvOf(p, t, lat, s, snaps) && GraphOk(p.g) && Target(p, s, x, beta) && !Marked(s.v, x)
    requires |s.stk| + 1 < MAX_STK
    requires start == NextStart(s.stk)
    ensures |snaps| == |s.stk|
    ensures InvOf(p, t, lat, s.(v := Mark(s.v, x), stk := s.stk + [NewFrame(p, x, beta, start)]), snaps + [s.m])
    ensures Extends(s.v, Mark(s.v, x))
  {
    hide InvOf, FrameOk, Waiting, Extends;
    StackSize(p, t, lat, s, snaps);
    FreshFrameOk(p, t, lat, s.v, x, beta, start);
    Push(p, t, lat, s, snaps, NewFrame(p, x, beta, start));
  }

  /** A marked target closes a dependency cycle. */
  lemma MarkedIsCycle(p: Problem, t: Truth, lat: set<Cost>, s: Search, snaps: seq<ModMap>, x: Ref, beta: real)
    requires InvOf(p, t, lat, s, snaps) && WellFormed(p) && Target(p, s, x, beta) && Marked(s.v, x)
    ensures !Acyclic(p)
  {
    hide WellFormed, Ranked;
    if Acyclic(p) {
      var rankV: Ref -> nat, rankM: Ref -> nat :| Ranked(p, rankV, rankM);
      MarkedRank(p, t, lat, s, snaps, x, beta, rankV, rankM);
    }
  }

  lemma MarkedRank(p: Problem, t: Truth, lat: set<Cost>, s: Search, snaps: seq<ModMap>, x: Ref, beta: real,
      rankV: Ref -> nat, rankM: Ref -> nat)
    requires InvOf(p, t, lat, s, snaps) && WellFormed(p) && Target(p, s, x, beta) && Marked(s.v, x)
    ensures !Ranked(p, rankV, rankM)
  {
    hide Setup, VarsOk, ModsOk, AllBitsOk, HaveOk, FloorsOk, PastOk, WorkOk, SnapsOk, StartsOk, SeenOk, WellFormed,
        Ranked, ShadowProgress, ParamProgress, Selected;
    FormedGraph(p);
    if Ranked(p, rankV, rankM) {
      var n := |s.stk| - 1;
      var k :| 0 <= k < |s.stk| && s.stk[k].x == x;
      assert FrameOk(p, t, lat, s.v, s.stk[n]);
      WaitingRank(p, t, rankV, rankM, s.stk[n], x, beta);
      StackRank(p, t, lat, s, rankV, rankM, k, n);
    }
  }

  lemma WaitingRank(p: Problem, t: Truth, rankV: Ref -> nat, rankM: Ref -> nat, f: XState, x: Ref, beta: real)
    requires WellFormed(p) && Ranked(p, rankV, rankM) && IsVar(p, f.x) && Selected(p, t, f) && Waiting(p, f, x, beta)
    ensures rankV(x) < rankV(f.x)
  {
    var i: nat :| IsCand(p, f.x, f.ei, i) && CandRef(p, f.x, f.ei, i) == f.m;
    if f.where == Shadow {
      assert IsCheck(p, f.m, f.edge, f.it);
    } else {
      assert IsParam(p, f.m, f.edge - 1, f.it);
    }
  }

  lemma {:induction false} StackRank(p: Problem, t: Truth, lat: set<Cost>, s: Search, rankV: Ref -> nat,
      rankM: Ref -> nat, k: nat, n: nat)
    requires WellFormed(p) && Ranked(p, rankV, rankM) && StackOk(p, t, lat, s.v, s.stk) && k <= n < |s.stk|
    ensures rankV(s.stk[n].x) <= rankV(s.stk[k].x)
  {
    if k < n {
      StackRank(p, t, lat, s, rankV, rankM, k, n - 1);
      assert FrameOk(p, t, lat, s.v, s.stk[n - 1]);
      assert Waiting(p, s.stk[n - 1], s.stk[n].x, s.stk[n].beta);
      WaitingRank(p, t, rankV, rankM, s.stk[n - 1], s.stk[n].x, s.stk[n].beta);
    }
  }

  // ---------- leaving a variable ----------

  function Below1<T>(s: seq<T>): seq<T>
    requires s != []
  {
    s[..|s| - 1]
  }

  lemma CallerFacts(p: Problem, t: Truth, lat: set<Cost>, s: Search, snaps: seq<ModMap>, f: XState, g: XState)
    requires InvOf(p, t, lat, s, snaps) && |s.stk| >= 2 && f == s.stk[|s.stk| - 1] && g == s.stk[|s.stk| - 2]
    ensures Setup(p, t, lat) && Waiting(p, g, f.x, f.beta) && Pending(p, s.b, g)
    ensures forall k :: 0 <= k < |s.stk| - 1 ==> s.stk[k].x != f.x
  {
    assert Waiting(p, s.stk[|s.stk| - 2], s.stk[|s.stk| - 1].x, s.stk[|s.stk| - 1].beta);
  }

  lemma WaitingAt(p: Problem, f: XState, x: Ref, beta: real)
    requires GraphOk(p.g) && Waiting(p, f, x, beta)
    ensures f.where == Shadow ==> AtCheck(p, f) && x == Guarded(p, CheckRef(p, f.m, f.edge, f.it)) && beta == MAX_COST
    ensures f.where == Param ==>
        AtParam(p, f) && x == ParamRef(p, f.m, f.edge - 1, f.it) && f.costS.Fin? && beta == f.betaS - f.costS.r
    ensures f.where != Candidate
  {
  }

  lemma PopState(p: Problem, t: Truth, lat: set<Cost>, s: Search, snaps: seq<ModMap>, f: XState, sp: VarSp)
    requires InvOf(p, t, lat, s, snaps) && s.stk != [] && f == s.stk[|s.stk| - 1]
    requires Stored(lat, sp.cost) && Le(sp.cost, t.v(f.x))
    requires sp.st.NoChain? ==> Lt(Fin(f.beta), sp.cost) && LeastCand(p, s.m, f.x, sp.cost)
    requires sp.st.Chain? ==>
        IsVar(p, f.x) && ChainOk(p, s.m, f.x, sp) && sp.cost == t.v(f.x) && Le(sp.cost, Fin(MAX_COST))
    ensures |snaps| == |s.stk|
    ensures InvOf(p, t, lat, s.(v := s.v[f.x := sp], stk := Below1(s.stk)), Below1(snaps))
    ensures Extends(s.v, s.v[f.x := sp])
  {
    hide InvOf, VarOk, ChainOk, Stored, Setup, FrameOk, Extends;
    TopFacts(p, t, lat, s, snaps, f);
    PoppedVar(p, t, lat, s, f, sp);
    Pop(p, t, lat, s, snaps, sp);
  }

  lemma PoppedVar(p: Problem, t: Truth, lat: set<Cost>, s: Search, f: XState, sp: VarSp)
    requires Setup(p, t, lat) && FrameOk(p, t, lat, s.v, f) && Stored(lat, sp.cost) && Le(sp.cost, t.v(f.x))
    requires sp.st.Chain? ==>
        IsVar(p, f.x) && ChainOk(p, s.m, f.x, sp) && sp.cost == t.v(f.x) && Le(sp.cost, Fin(MAX_COST))
    ensures sp.cost != Fin(SP_MARK) && VarOk(p, t, lat, s.v[f.x := sp], s.m, f.x)
  {
    hide WellFormed, IsSolution, StartBounds, Closed, ChainOk;
    StoredNonNeg(p, lat, sp.cost);
  }

  /** A variable that failed: its caller learns a bound, or a failed check, or the root is unsolvable. */
  lemma FailFacts(p: Problem, t: Truth, lat: set<Cost>, s: Search, snaps: seq<ModMap>, f: XState, c: Cost)
    requires InvOf(p, t, lat, s, snaps) && s.stk != [] && f == s.stk[|s.stk| - 1]
    requires Lt(Fin(f.beta), c) && Le(c, t.v(f.x)) && Stored(lat, c) && LeastCand(p, s.m, f.x, c)
    ensures |snaps| == |s.stk| && GraphOk(p.g)
    ensures var s' := s.(v := s.v[f.x := VarSp(c, NoChain)], stk := Below1(s.stk));
            && InvOf(p, t, lat, s', Below1(snaps)) && Extends(s.v, s'.v)
            && (s'.stk == [] ==> Lt(Fin(MAX_COST), t.v(f.x)))
            && (s'.stk != [] ==> FailResume(p, t, lat, s', Below1(snaps), s'.stk[|s'.stk| - 1], c))
  {
    hide InvOf, FrameOk, TopOk, LeastCand, Stored, Setup, Extends, FailResume, Waiting, Pending;
    var sp := VarSp(c, NoChain);
    TopFacts(p, t, lat, s, snaps, f);
    SetupGraph(p, t, lat);
    FrameBeta(p, t, lat, s.v, f);
    PopState(p, t, lat, s, snaps, f, sp);
    var s' := s.(v := s.v[f.x := sp], stk := Below1(s.stk));
    if s'.stk == [] {
      RootBeta(p, t, lat, s, snaps);
    } else {
      var g := s'.stk[|s'.stk| - 1];
      CallerFacts(p, t, lat, s, snaps, f, g);
      FailResumes(p, t, lat, s', Below1(snaps), g, f.x, f.beta, c);
    }
  }

  lemma FrameBeta(p: Problem, t: Truth, lat: set<Cost>, v: VarMap, f: XState)
    requires GraphOk(p.g) && FrameOk(p, t, lat, v, f)
    ensures 0.0 <= f.beta
  {
  }

  lemma RootBeta(p: Problem, t: Truth, lat: set<Cost>, s: Search, snaps: seq<ModMap>)
    requires InvOf(p, t, lat, s, snaps) && s.stk != []
    ensures s.stk[0].beta == MAX_COST
  {
  }

  /** How the caller goes on after a failed solve. */
  ghost predicate FailResume(p: Problem, t: Truth, lat: set<Cost>, s: Search, snaps: seq<ModMap>, g: XState, c: Cost)
    requires GraphOk(p.g)
  {
    && g.where != Candidate
    && (g.where == Param ==>
          OverThreshold(p, t, lat, g, Add(g.costS, c)) && Reached(p, t, s.v, s.b, g, Add(g.costS, c)))
    && (g.where == Shadow ==>
          AtCheck(p, g) && InvOf(p, t, lat, s.(b := s.b[CheckRef(p, g.m, g.edge, g.it) := Failed]), snaps))
  }

  lemma FailResumes(p: Problem, t: Truth, lat: set<Cost>, s: Search, snaps: seq<ModMap>, g: XState, x: Ref, beta: real,
      c: Cost)
    requires InvOf(p, t, lat, s, snaps) && s.stk != [] && g == s.stk[|s.stk| - 1]
    requires Setup(p, t, lat) && Waiting(p, g, x, beta) && Pending(p, s.b, g)
    requires forall k :: 0 <= k < |s.stk| ==> s.stk[k].x != x
    requires Lt(Fin(beta), c) && Le(c, t.v(x)) && Stored(lat, c) && x in s.v && s.v[x].cost == c && Le(Fin(0.0), c)
    ensures FailResume(p, t, lat, s, snaps, g, c)
  {
    hide InvOf, TopOk, FrameOk, Waiting, Setup;
    SetupGraph(p, t, lat);
    WaitingAt(p, g, x, beta);
    TopFacts(p, t, lat, s, snaps, g);
    if g.where == Param {
      ParamOver(p, t, lat, s, g, c);
    } else {
      FailBitFacts(p, t, lat, s, snaps, g, CheckRef(p, g.m, g.edge, g.it));
    }
  }

  lemma SetupGraph(p: Problem, t: Truth, lat: set<Cost>)
    requires Setup(p, t, lat)
    ensures WellFormed(p) && GraphOk(p.g)
  {
  }

  /** `m`, behind edge `ei` of `x`, is a candidate with a chain and the true cost of `x`. */
  ghost predicate BestChain(p: Problem, t: Truth, s: Search, x: Ref, ei: nat, m: Ref, c: Cost) {
    && IsVar(p, x) && ei < NumEdges(p, x)
    && (exists i: nat :: IsCand(p, x, ei, i) && CandRef(p, x, ei, i) == m)
    && m in s.m && s.m[m] == ModSp(c, true)
    && c == t.v(x)
  }

  /** A variable that was solved: its caller can use the exact cost. */
  lemma ChooseFacts(p: Problem, t: Truth, lat: set<Cost>, s: Search, snaps: seq<ModMap>, f: XState, ei: nat, m: Ref,
      c: Cost)
    requires InvOf(p, t, lat, s, snaps) && s.stk != [] && f == s.stk[|s.stk| - 1]
    requires BestChain(p, t, s, f.x, ei, m, c) && Le(c, Fin(f.beta)) && Stored(lat, c)
    ensures |snaps| == |s.stk| && GraphOk(p.g)
    ensures var s' := s.(v := s.v[f.x := VarSp(c, Chain(ei, m.inst))], stk := Below1(s.stk));
            && InvOf(p, t, lat, s', Below1(snaps)) && Extends(s.v, s'.v)
            && (s'.stk != [] ==> ChooseResume(p, t, lat, s', Below1(snaps)[|s'.stk| - 1], s'.stk[|s'.stk| - 1], f.x, c))
  {
    hide InvOf, FrameOk, TopOk, Setup;
    var sp := VarSp(c, Chain(ei, m.inst));
    TopFacts(p, t, lat, s, snaps, f);
    SetupGraph(p, t, lat);
    TopBeta(p, t, lat, s.v, f);
    PopState(p, t, lat, s, snaps, f, sp);
    var s' := s.(v := s.v[f.x := sp], stk := Below1(s.stk));
    if s'.stk != [] {
      var g := s'.stk[|s'.stk| - 1];
      CallerFacts(p, t, lat, s, snaps, f, g);
      TopFacts(p, t, lat, s', Below1(snaps), g);
      ChooseResumes(p, t, lat, s', Below1(snaps)[|s'.stk| - 1], g, f.x, f.beta, c);
    }
  }

  lemma TopBeta(p: Problem, t: Truth, lat: set<Cost>, v: VarMap, f: XState)
    requires GraphOk(p.g) && FrameOk(p, t, lat, v, f)
    ensures f.beta <= MAX_COST && IsVar(p, f.x)
  {
  }

  /** How the caller goes on after a solve. */
  ghost predicate ChooseResume(p: Problem, t: Truth, lat: set<Cost>, s: Search, snap: ModMap, g: XState, x: Ref,
      c: Cost)
    requires GraphOk(p.g)
  {
    && g.where != Candidate && IsModel(p, g.m)
    && (g.where == Param ==> Next(p, t, lat, s, snap, g, g.(ssmax := Max(g.ssmax, c), it := g.it + 1)))
    && (g.where == Shadow ==> AtCheck(p, g) && x == Guarded(p, CheckRef(p, g.m, g.edge, g.it)) && Chained(s.v, x))
  }

  lemma ChooseResumes(p: Problem, t: Truth, lat: set<Cost>, s: Search, snap: ModMap, g: XState, x: Ref, beta: real,
      c: Cost)
    requires TopOk(p, t, lat, s, g) && Waiting(p, g, x, beta)
    requires Chained(s.v, x) && c == t.v(x) && Stored(lat, c) && Le(c, Fin(beta)) && beta <= MAX_COST
    ensures ChooseResume(p, t, lat, s, snap, g, x, c)
  {
    hide Setup, Closed, Waiting, ProgressOk, Next, Chained;
    WaitingAt(p, g, x, beta);
    if g.where == Param {
      ParamWithin(p, t, lat, s, snap, g, c);
    }
  }

  // ---------- selecting a candidate ----------

  /** What the scan over the candidates of `f` found. */
  ghost predicate Scan(mm: ModMap, f: XState, cost: Cost, mbeta: real, ei: nat, m: Ref) {
    && (cost.Inf? || exists c, i :: c in f.cands && 0 <= i < |c.insts| && ei == c.ei && m == Ref(c.mi, c.insts[i])
                                    && m in mm && mm[m].cost == cost)
    && (forall c, i :: c in f.cands && 0 <= i < |c.insts| ==>
          var r := Ref(c.mi, c.insts[i]);
          r in mm && Le(cost, mm[r].cost) && (r == m || Le(Fin(mbeta), mm[r].cost)))
    && mbeta <= f.beta
    && (Le(cost, Fin(f.beta)) ==> Le(cost, Fin(mbeta)))
  }

  /** Seen from the graph: every candidate has a bound at least `cost`, all but `m` at least `mbeta`. */
  lemma ScanCand(p: Problem, t: Truth, lat: set<Cost>, v: VarMap, mm: ModMap, f: XState,
                 cost: Cost, mbeta: real, sei: nat, m: Ref, ei: nat, i: nat)
    requires WellFormed(p) && ModsOk(p, t, lat, v, mm) && FrameOk(p, t, lat, v, f) && Scan(mm, f, cost, mbeta, sei, m)
    requires IsCand(p, f.x, ei, i)
    ensures var r := CandRef(p, f.x, ei, i); Le(cost, t.m(r)) && (r == m || Le(Fin(mbeta), t.m(r)))
  {
    var c := Cand(ei, p.g.vars[f.x.idx].models[ei].idx, CandInsts(p, f.x, ei));
    var r := CandRef(p, f.x, ei, i);
    CandListExact(p, f.x, NumEdges(p, f.x), c);
    assert c in f.cands && Ref(c.mi, c.insts[i]) == r;
    assert IsModel(p, r) && ModOk(p, t, lat, v, mm, r);
  }

  lemma ScanChosen(p: Problem, f: XState, mm: ModMap, cost: Cost, mbeta: real, ei: nat, m: Ref)
    requires WellFormed(p) && IsVar(p, f.x) && f.cands == CandList(p, f.x, NumEdges(p, f.x))
    requires Scan(mm, f, cost, mbeta, ei, m) && cost.Fin?
    ensures IsModel(p, m) && ei < NumEdges(p, f.x) && m in mm && mm[m].cost == cost
    ensures exists i: nat :: IsCand(p, f.x, ei, i) && CandRef(p, f.x, ei, i) == m
  {
    var c, i :| c in f.cands && 0 <= i < |c.insts| && ei == c.ei && m == Ref(c.mi, c.insts[i]) && m in mm
        && mm[m].cost == cost;
    CandListExact(p, f.x, NumEdges(p, f.x), c);
    assert IsCand(p, f.x, ei, i) && CandRef(p, f.x, ei, i) == m;
  }

  /** The cheapest stored bound is a lower bound of the variable's true cost. */
  lemma ScanLower(p: Problem, t: Truth, lat: set<Cost>, s: Search, snaps: seq<ModMap>, f: XState,
                  cost: Cost, mbeta: real, ei: nat, m: Ref)
    requires InvOf(p, t, lat, s, snaps) && s.stk != [] && f == s.stk[|s.stk| - 1]
    requires Scan(s.m, f, cost, mbeta, ei, m)
    ensures Le(cost, t.v(f.x)) && Stored(lat, cost)
  {
    hide InvOf, Scan, TopOk, Closed, StartBounds, Selected, ShadowProgress, ParamProgress;
    TopFacts(p, t, lat, s, snaps, f);
    InvState(p, t, lat, s, snaps);
    assert VarEquation(p, t, f.x);
    if t.v(f.x).Fin? {
      var e: nat, i: nat :| IsCand(p, f.x, e, i) && t.m(CandRef(p, f.x, e, i)) == t.v(f.x);
      ScanCand(p, t, lat, s.v, s.m, f, cost, mbeta, ei, m, e, i);
    }
    if cost.Fin? {
      ScanChosen(p, f, s.m, cost, mbeta, ei, m);
      assert ModOk(p, t, lat, s.v, s.m, m);
    }
  }

  /** What the scan found is the least bound of a candidate. */
  lemma ScanLeast(p: Problem, t: Truth, lat: set<Cost>, s: Search, snaps: seq<ModMap>, f: XState,
                  cost: Cost, mbeta: real, ei: nat, m: Ref)
    requires InvOf(p, t, lat, s, snaps) && s.stk != [] && f == s.stk[|s.stk| - 1]
    requires Scan(s.m, f, cost, mbeta, ei, m)
    ensures LeastCand(p, s.m, f.x, cost)
  {
    hide InvOf, TopOk, Closed, StartBounds, IsSolution, Selected, ShadowProgress, ParamProgress;
    TopFacts(p, t, lat, s, snaps, f);
    forall e: nat, i: nat | IsCand(p, f.x, e, i)
      ensures CandRef(p, f.x, e, i) in s.m && Le(cost, s.m[CandRef(p, f.x, e, i)].cost)
    {
      var c := Cand(e, p.g.vars[f.x.idx].models[e].idx, CandInsts(p, f.x, e));
      CandListExact(p, f.x, NumEdges(p, f.x), c);
      assert c in f.cands && Ref(c.mi, c.insts[i]) == CandRef(p, f.x, e, i);
    }
    if cost.Fin? {
      ScanChosen(p, f, s.m, cost, mbeta, ei, m);
    }
  }

  /** A candidate whose true cost is the scanned minimum, or within the second best bound, is the best one. */
  lemma BestCandidate(p: Problem, t: Truth, x: Ref, ei: nat, m: Ref, c: real)
    requires WellFormed(p) && IsSolution(p, t) && IsVar(p, x) && !Given(p.g, x.idx) && ei < NumEdges(p, x)
    requires exists i: nat :: IsCand(p, x, ei, i) && CandRef(p, x, ei, i) == m
    requires t.m(m) == Fin(c)
    requires forall e: nat, i: nat :: IsCand(p, x, e, i) ==>
        CandRef(p, x, e, i) == m || Le(Fin(c), t.m(CandRef(p, x, e, i)))
    ensures t.v(x) == Fin(c)
  {
    assert VarEquation(p, t, x);
    var e: nat, i: nat :| IsCand(p, x, e, i) && t.m(CandRef(p, x, e, i)) == t.v(x);
  }

  /** A candidate that already has a chain is taken as it is. */
  lemma ChainedCandidate(p: Problem, t: Truth, lat: set<Cost>, s: Search, snaps: seq<ModMap>, f: XState,
                         cost: Cost, mbeta: real, ei: nat, m: Ref)
    requires InvOf(p, t, lat, s, snaps) && s.stk != [] && f == s.stk[|s.stk| - 1]
    requires Scan(s.m, f, cost, mbeta, ei, m) && Le(cost, Fin(f.beta)) && m in s.m && s.m[m].chain
    ensures BestChain(p, t, s, f.x, ei, m, cost)
  {
    assert FrameOk(p, t, lat, s.v, f);
    ScanChosen(p, f, s.m, cost, mbeta, ei, m);
    assert ModOk(p, t, lat, s.v, s.m, m);
    forall e: nat, i: nat | IsCand(p, f.x, e, i)
      ensures CandRef(p, f.x, e, i) == m || Le(cost, t.m(CandRef(p, f.x, e, i)))
    {
      ScanCand(p, t, lat, s.v, s.m, f, cost, mbeta, ei, m, e, i);
    }
    BestCandidate(p, t, f.x, ei, m, cost.r);
  }

  function Begin(p: Problem, f: XState, mbeta: real, ei: nat, m: Ref): XState
    requires IsModel(p, m) && ModelOf(p, m).c >= 1.0
  {
    f.(where := Shadow, m := m, ei := ei, mbeta := mbeta, betaS := InvS(ModelOf(p, m).k, ModelOf(p, m).c, mbeta),
       costS := Fin(0.0), edge := 0, it := 0, ssmax := Fin(0.0))
  }

  lemma BeginSelected(p: Problem, t: Truth, lat: set<Cost>, s: Search, f: XState, cost: Cost, mbeta: real, ei: nat,
      m: Ref)
    requires StateOk(p, t, lat, s) && FrameOk(p, t, lat, s.v, f)
    requires Scan(s.m, f, cost, mbeta, ei, m) && Le(cost, Fin(f.beta))
    ensures IsModel(p, m) && ModelOf(p, m).c >= 1.0 && m in s.m && ModelOf(p, m).k <= mbeta <= f.beta
    ensures Le(s.m[m].cost, Fin(mbeta))
    ensures Selected(p, t, Begin(p, f, mbeta, ei, m))
  {
    ScanChosen(p, f, s.m, cost, mbeta, ei, m);
    assert ModOk(p, t, lat, s.v, s.m, m) && ModelOk(p.g, ModelOf(p, m));
    forall e: nat, i: nat | IsCand(p, f.x, e, i) && CandRef(p, f.x, e, i) != m
      ensures Le(Fin(mbeta), t.m(CandRef(p, f.x, e, i)))
    {
      ScanCand(p, t, lat, s.v, s.m, f, cost, mbeta, ei, m, e, i);
    }
  }

  lemma BeginFrame(p: Problem, t: Truth, lat: set<Cost>, s: Search, f: XState, cost: Cost, mbeta: real, ei: nat, m: Ref)
    requires StateOk(p, t, lat, s) && FrameOk(p, t, lat, s.v, f) && GraphOk(p.g) && Fin(0.0) in lat
    requires Scan(s.m, f, cost, mbeta, ei, m) && Le(cost, Fin(f.beta)) && m in s.m && !s.m[m].chain
    ensures IsModel(p, m) && ModelOf(p, m).c >= 1.0 && Le(s.m[m].cost, Fin(mbeta))
    ensures FrameOk(p, t, lat, s.v, Begin(p, f, mbeta, ei, m)) && InProgress(p, s.m, s.b, Begin(p, f, mbeta, ei, m))
  {
    hide StateOk, Scan, Selected, InvS;
    BeginSelected(p, t, lat, s, f, cost, mbeta, ei, m);
    InvSExact(ModelOf(p, m).k, ModelOf(p, m).c, mbeta, 0.0);
  }

  /** Work on the selected candidate begins, with a snapshot of all bounds. */
  lemma SelectFacts(p: Problem, t: Truth, lat: set<Cost>, s: Search, snaps: seq<ModMap>, f: XState,
                    cost: Cost, mbeta: real, ei: nat, m: Ref)
    requires InvOf(p, t, lat, s, snaps) && s.stk != [] && f == s.stk[|s.stk| - 1] && f.where == Candidate
    requires Scan(s.m, f, cost, mbeta, ei, m) && Le(cost, Fin(f.beta)) && m in s.m && !s.m[m].chain
    ensures IsModel(p, m) && ModelOf(p, m).c >= 1.0 && |snaps| == |s.stk|
    ensures var g := Begin(p, f, mbeta, ei, m);
            && InvOf(p, t, lat, s.(stk := SetTop(s.stk, g)), SetTop(snaps, s.m))
            && LessRank(FrameRank(p, lat, s.m, s.m, g), FrameRank(p, lat, s.m, snaps[|s.stk| - 1], f))
  {
    hide InvOf, FrameOk, TopOk, InProgress, Scan, Setup, StateOk;
    TopFacts(p, t, lat, s, snaps, f);
    InvState(p, t, lat, s, snaps);
    ZeroStored(p, t, lat, s);
    BeginFrame(p, t, lat, s, f, cost, mbeta, ei, m);
    Resnap(p, t, lat, s, snaps);
    Move(p, t, lat, s, SetTop(snaps, s.m), Begin(p, f, mbeta, ei, m));
  }

  lemma ZeroStored(p: Problem, t: Truth, lat: set<Cost>, s: Search)
    requires StateOk(p, t, lat, s)
    ensures Fin(0.0) in lat && GraphOk(p.g)
  {
    assert Fin(0.0) in Generators(p.g, MAX_COST);
  }

  lemma InvState(p: Problem, t: Truth, lat: set<Cost>, s: Search, snaps: seq<ModMap>)
    requires InvOf(p, t, lat, s, snaps)
    ensures StateOk(p, t, lat, s)
  {
  }

  // ---------- a complete candidate ----------

  lemma FinishExact(p: Problem, t: Truth, lat: set<Cost>, s: Search, f: XState)
    requires TopOk(p, t, lat, s, f) && FrameOk(p, t, lat, s.v, f) && f.where == Param && f.edge == 0
    ensures var c := Costf(ModelOf(p, f.m).k, ModelOf(p, f.m).c, f.costS);
            && Stored(lat, c) && Le(c, Fin(f.mbeta)) && c == t.m(f.m) && c == t.v(f.x) && f.ei < NumEdges(p, f.x)
            && ModOk(p, t, lat, s.v, s.m[f.m := ModSp(c, true)], f.m)
            && ChecksSeen(p, s.b, f.m, |ModelOf(p, f.m).checks|)
  {
    var m := ModelOf(p, f.m);
    var c := Costf(m.k, m.c, f.costS);
    assert ModelEquation(p, t, f.m);
    StoredImage(p, lat, f.m.idx, f.costS);
    CostfAtLeast(m.k, m.c, f.costS);
    CostfAbove(m.k, m.c, f.mbeta, f.costS);
    FinishBest(p, t, f, c);
  }

  lemma FinishBest(p: Problem, t: Truth, f: XState, c: Cost)
    requires WellFormed(p) && IsSolution(p, t) && IsVar(p, f.x) && !Given(p.g, f.x.idx) && Selected(p, t, f)
    requires c == t.m(f.m) && Le(c, Fin(f.mbeta))
    ensures c == t.v(f.x)
  {
    hide WellFormed, IsSolution;
    forall e: nat, i: nat | IsCand(p, f.x, e, i)
      ensures CandRef(p, f.x, e, i) == f.m || Le(c, t.m(CandRef(p, f.x, e, i)))
    {
    }
    BestCandidate(p, t, f.x, f.ei, f.m, c.r);
  }

  /** All checks and parameters are done below the threshold: the cost is exact. */
  lemma FinishFacts(p: Problem, t: Truth, lat: set<Cost>, s: Search, snaps: seq<ModMap>, f: XState)
    requires InvOf(p, t, lat, s, snaps) && s.stk != [] && f == s.stk[|s.stk| - 1] && f.where == Param && f.edge == 0
    ensures IsModel(p, f.m)
    ensures var c := Costf(ModelOf(p, f.m).k, ModelOf(p, f.m).c, f.costS);
            var s' := s.(m := s.m[f.m := ModSp(c, true)], stk := SetTop(s.stk, f.(where := Candidate)));
            && InvOf(p, t, lat, s', snaps) && BestChain(p, t, s', f.x, f.ei, f.m, c)
            && Le(c, Fin(f.beta)) && Stored(lat, c)
  {
    hide InvOf, FrameOk, TopOk, Setup, ModOk, Costf;
    TopFacts(p, t, lat, s, snaps, f);
    TopModel(p, t, lat, s, f);
    var c := Costf(ModelOf(p, f.m).k, ModelOf(p, f.m).c, f.costS);
    FinishExact(p, t, lat, s, f);
    SnapBelowTruth(p, t, lat, s, snaps, f);
    Settle(p, t, lat, s, snaps, f, ModSp(c, true));
  }

  lemma TopModel(p: Problem, t: Truth, lat: set<Cost>, s: Search, f: XState)
    requires TopOk(p, t, lat, s, f) && FrameOk(p, t, lat, s.v, f)
    ensures IsModel(p, f.m) && IsVar(p, f.x) && f.mbeta <= f.beta && f.ei < NumEdges(p, f.x)
    ensures exists i: nat :: IsCand(p, f.x, f.ei, i) && CandRef(p, f.x, f.ei, i) == f.m
  {
  }

  lemma SnapBelowTruth(p: Problem, t: Truth, lat: set<Cost>, s: Search, snaps: seq<ModMap>, f: XState)
    requires InvOf(p, t, lat, s, snaps) && s.stk != [] && f == s.stk[|s.stk| - 1] && f.where != Candidate
    requires IsModel(p, f.m)
    requires |snaps| == |s.stk| && f.m in snaps[|s.stk| - 1]
    ensures Le(snaps[|s.stk| - 1][f.m].cost, t.m(f.m)) && f.m in s.m && Le(s.m[f.m].cost, t.m(f.m))
  {
    assert ModOk(p, t, lat, s.v, s.m, f.m) && Below(snaps[|s.stk| - 1], s.m);
  }

  lemma RankIgnoresBounds(p: Problem, lat: set<Cost>, mm: ModMap, mm': ModMap, snap: ModMap, f: XState)
    requires f.where != Candidate
    ensures FrameRank(p, lat, mm, snap, f) == FrameRank(p, lat, mm', snap, f)
  {
  }

  lemma TopCheck(p: Problem, t: Truth, lat: set<Cost>, s: Search, snaps: seq<ModMap>, f: XState)
    requires InvOf(p, t, lat, s, snaps) && s.stk != [] && f == s.stk[|s.stk| - 1] && GraphOk(p.g) && AtCheck(p, f)
    ensures IsShadow(p, CheckRef(p, f.m, f.edge, f.it)) && BitsOk(p, t, s.b, CheckRef(p, f.m, f.edge, f.it))
  {
  }

  lemma ExtendsRefl(v: VarMap)
    ensures Extends(v, v)
  {
  }

  lemma ExtendsTrans(u: VarMap, v: VarMap, w: VarMap)
    requires Extends(u, v) && Extends(v, w)
    ensures Extends(u, w)
  {
  }

  /** All candidates of a frame have stored bounds. */
  lemma CandsStored(p: Problem, t: Truth, lat: set<Cost>, s: Search, snaps: seq<ModMap>, f: XState)
    requires InvOf(p, t, lat, s, snaps) && s.stk != [] && f == s.stk[|s.stk| - 1]
    ensures forall c, i :: c in f.cands && 0 <= i < |c.insts| ==> Ref(c.mi, c.insts[i]) in s.m
  {
    assert FrameOk(p, t, lat, s.v, f);
    forall c, i: nat | c in f.cands && i < |c.insts|
      ensures Ref(c.mi, c.insts[i]) in s.m
    {
      CandListExact(p, f.x, NumEdges(p, f.x), c);
      assert IsCand(p, f.x, c.ei, i);
      assert IsModel(p, CandRef(p, f.x, c.ei, i));
      assert ModOk(p, t, lat, s.v, s.m, CandRef(p, f.x, c.ei, i));
    }
  }

  lemma TopChecks(p: Problem, t: Truth, lat: set<Cost>, s: Search, f: XState)
    requires TopOk(p, t, lat, s, f) && f.where == Shadow
    ensures IsModel(p, f.m) && f.edge <= |ModelOf(p, f.m).checks|
    ensures f.edge < |ModelOf(p, f.m).checks| ==> f.it <= |CheckInsts(p, f.m, f.edge)|
  {
  }

  lemma TopParams(p: Problem, t: Truth, lat: set<Cost>, s: Search, f: XState)
    requires TopOk(p, t, lat, s, f) && f.where == Param
    ensures IsModel(p, f.m) && f.edge <= |ModelOf(p, f.m).params| && f.costS.Fin?
    ensures f.edge > 0 ==> f.it <= |ParamInsts(p, f.m, f.edge - 1)|
  {
  }

  /** A check whose variable has neither value nor chain is solved first. */
  lemma CheckTarget(p: Problem, t: Truth, lat: set<Cost>, s: Search, snaps: seq<ModMap>, f: XState)
    requires InvOf(p, t, lat, s, snaps) && s.stk != [] && f == s.stk[|s.stk| - 1] && GraphOk(p.g) && AtCheck(p, f)
    ensures var w := CheckRef(p, f.m, f.edge, f.it); var x := Guarded(p, w);
            && w in s.b && x in s.v && IsVar(p, x)
            && (s.b[w].Unevaluated? && !Given(p.g, x.idx) && !s.v[x].st.Chain? ==> Target(p, s, x, MAX_COST))
  {
    hide InvOf, VarOk, BitsOk, FrameOk, TopOk;
    TopCheck(p, t, lat, s, snaps, f);
    CheckedVar(p, t, lat, s, snaps, CheckRef(p, f.m, f.edge, f.it));
  }

  lemma CheckedVar(p: Problem, t: Truth, lat: set<Cost>, s: Search, snaps: seq<ModMap>, w: Ref)
    requires InvOf(p, t, lat, s, snaps) && IsShadow(p, w)
    ensures w in s.b && Guarded(p, w) in s.v
  {
    hide StackOk, MarksOk, WorkOk, SnapsOk, StartsOk, SeenOk, Setup;
    assert VarOk(p, t, lat, s.v, s.m, Guarded(p, w)) && BitsOk(p, t, s.b, w);
  }

  /** A parameter instance within the threshold whose chain is not known is solved first. */
  lemma ParamTarget(p: Problem, t: Truth, lat: set<Cost>, s: Search, snaps: seq<ModMap>, f: XState)
    requires InvOf(p, t, lat, s, snaps) && s.stk != [] && f == s.stk[|s.stk| - 1] && GraphOk(p.g) && AtParam(p, f)
    ensures var x := ParamRef(p, f.m, f.edge - 1, f.it);
            && x in s.v && IsVar(p, x) && Le(s.v[x].cost, t.v(x)) && f.costS.Fin?
            && (Lt(Fin(f.betaS), Add(f.costS, s.v[x].cost)) ==> Stored(lat, s.v[x].cost) && !Marked(s.v, x))
            && (s.v[x].st.Chain? ==> s.v[x].cost == t.v(x) && s.v[x].cost in lat)
            && (!s.v[x].st.Chain? && !Lt(Fin(f.betaS), Add(f.costS, s.v[x].cost)) ==>
                Target(p, s, x, f.betaS - f.costS.r))
  {
    hide InvOf, TopOk, FrameOk, Setup;
    var x := ParamRef(p, f.m, f.edge - 1, f.it);
    TopFacts(p, t, lat, s, snaps, f);
    TopBudget(p, t, lat, s, f);
    ParamVar(p, t, lat, s, snaps, f, x);
  }

  lemma ParamVar(p: Problem, t: Truth, lat: set<Cost>, s: Search, snaps: seq<ModMap>, f: XState, x: Ref)
    requires InvOf(p, t, lat, s, snaps) && GraphOk(p.g) && AtParam(p, f) && x == ParamRef(p, f.m, f.edge - 1, f.it)
    requires f.edge <= ModelOf(p, f.m).cparam
    ensures IsVar(p, x) && !Given(p.g, x.idx) && VarOk(p, t, lat, s.v, s.m, x)
  {
    hide StackOk, MarksOk, WorkOk, SnapsOk;
  }

  lemma TopBudget(p: Problem, t: Truth, lat: set<Cost>, s: Search, f: XState)
    requires TopOk(p, t, lat, s, f) && f.where == Param
    ensures IsModel(p, f.m) && f.edge <= ModelOf(p, f.m).cparam && f.costS.Fin?
    ensures 0.0 <= f.costS.r <= f.betaS <= MAX_COST
  {
    hide Setup, Closed;
  }

  lemma CallerWorks(p: Problem, t: Truth, lat: set<Cost>, s: Search, snaps: seq<ModMap>)
    requires InvOf(p, t, lat, s, snaps) && |s.stk| > 1
    ensures s.stk[|s.stk| - 2].where != Candidate
  {
    assert Waiting(p, s.stk[|s.stk| - 2], s.stk[|s.stk| - 1].x, s.stk[|s.stk| - 1].beta);
  }

  lemma StackSize(p: Problem, t: Truth, lat: set<Cost>, s: Search, snaps: seq<ModMap>)
    requires InvOf(p, t, lat, s, snaps)
    ensures |snaps| == |s.stk| < MAX_STK
  {
  }

  lemma IdleFacts(p: Problem, t: Truth, lat: set<Cost>, s: Search, snaps: seq<ModMap>)
    requires InvOf(p, t, lat, s, snaps)
    ensures GraphOk(p.g) && WellFormed(p)
  {
  }

  lemma ChainedExact(p: Problem, t: Truth, lat: set<Cost>, s: Search, snaps: seq<ModMap>, x: Ref)
    requires InvOf(p, t, lat, s, snaps) && IsVar(p, x)
    ensures Chained(s.v, x) ==> s.v[x].cost == t.v(x) && Le(t.v(x), Fin(MAX_COST))
  {
    assert VarOk(p, t, lat, s.v, s.m, x);
  }

  // ---------- the start ----------

  lemma StartFacts(p: Problem, t: Truth, lat: set<Cost>)
    requires WellFormed(p) && IsSolution(p, t) && StartBounds(p, t) && Closed(p.g, lat)
    ensures var v: VarMap := map x | x in AllVars(p) :: VarSp(Fin(0.0), NoChain);
            var mm: ModMap := map m | m in AllModels(p) :: ModSp(Fin(p.g.models[m.idx].cmin), false);
            var b: BitMap := map w | w in AllShadows(p) :: Unevaluated;
            InvOf(p, t, lat, Search(v, mm, b, {}, [], {}, {}), [])
  {
    hide WellFormed, IsSolution, StartBounds, ClosedTo, VarsOk, ModsOk, AllBitsOk, FloorsOk, GraphOk, InvOf;
    FormedGraph(p);
    var v: VarMap := map x | x in AllVars(p) :: VarSp(Fin(0.0), NoChain);
    var mm: ModMap := map m | m in AllModels(p) :: ModSp(Fin(p.g.models[m.idx].cmin), false);
    var b: BitMap := map w | w in AllShadows(p) :: Unevaluated;
    StartModels(p, t, lat, v, mm);
    StartVars(p, t, lat, v, mm);
    StartBits(p, t, b);
    StartInv(p, t, lat, v, mm, b);
  }

  lemma StartInv(p: Problem, t: Truth, lat: set<Cost>, v: VarMap, mm: ModMap, b: BitMap)
    requires WellFormed(p) && IsSolution(p, t) && StartBounds(p, t) && Closed(p.g, lat)
    requires VarsOk(p, t, lat, v, mm) && ModsOk(p, t, lat, v, mm) && AllBitsOk(p, t, b) && FloorsOk(p, v, mm)
    requires forall x :: x in v ==> v[x] == VarSp(Fin(0.0), NoChain)
    requires (forall m :: m in mm ==> !mm[m].chain) && forall w :: w in b ==> b[w] == Unevaluated
    ensures InvOf(p, t, lat, Search(v, mm, b, {}, [], {}, {}), [])
  {
    hide WellFormed, IsSolution, StartBounds, ClosedTo, VarsOk, ModsOk, AllBitsOk, FloorsOk, GraphOk;
    FormedGraph(p);
  }

  lemma StartModels(p: Problem, t: Truth, lat: set<Cost>, v: VarMap, mm: ModMap)
    requires WellFormed(p) && IsSolution(p, t) && StartBounds(p, t) && Closed(p.g, lat)
    requires forall m: Ref :: IsModel(p, m) ==> m in mm && mm[m] == ModSp(Fin(ModelOf(p, m).cmin), false)
    ensures ModsOk(p, t, lat, v, mm)
  {
    hide WellFormed, IsSolution;
    FormedGraph(p);
    forall m: Ref | IsModel(p, m)
      ensures Stored(lat, Fin(ModelOf(p, m).cmin))
    {
      assert ModelOk(p.g, ModelOf(p, m));
      if ModelOf(p, m).cmin <= MAX_COST {
        assert Fin(ModelOf(p, m).cmin) in Generators(p.g, MAX_COST);
      }
    }
  }

  lemma StartVars(p: Problem, t: Truth, lat: set<Cost>, v: VarMap, mm: ModMap)
    requires WellFormed(p) && IsSolution(p, t) && Closed(p.g, lat) && StartBounds(p, t)
    requires forall x: Ref :: IsVar(p, x) ==> x in v && v[x] == VarSp(Fin(0.0), NoChain)
    requires forall m: Ref :: IsModel(p, m) ==> m in mm && mm[m] == ModSp(Fin(ModelOf(p, m).cmin), false)
    ensures VarsOk(p, t, lat, v, mm) && FloorsOk(p, v, mm)
  {
    hide IsSolution;
    SolutionNonNeg(p, t);
    assert Fin(0.0) in Generators(p.g, MAX_COST);
    forall x: Ref, ei: nat, i: nat | IsCand(p, x, ei, i)
      ensures IsModel(p, CandRef(p, x, ei, i)) && ModelOk(p.g, ModelOf(p, CandRef(p, x, ei, i)))
    {
    }
  }

  lemma StartBits(p: Problem, t: Truth, b: BitMap)
    requires GraphOk(p.g) && forall w: Ref :: IsShadow(p, w) ==> w in b && b[w] == Unevaluated
    ensures AllBitsOk(p, t, b)
  {
  }

  // ---------- values across the solver's steps ----------

  lemma TopUnchained(p: Problem, t: Truth, lat: set<Cost>, s: Search, snaps: seq<ModMap>, f: XState)
    requires InvOf(p, t, lat, s, snaps) && s.stk != [] && f == s.stk[|s.stk| - 1]
    ensures IsVar(p, f.x) && !Chained(s.v, f.x)
  {
    assert FrameOk(p, t, lat, s.v, f) && Marked(s.v, f.x);
    assert VarOk(p, t, lat, s.v, s.m, f.x);
  }

  lemma KeepBest(p: Problem, t: Truth, s: Search, st: Stamps, r: Store, x: Ref, ei: nat, m: Ref, c: Cost)
    requires ValuesOk(p, s.v, s.m, st, r, {}, {}) && BestChain(p, t, s, x, ei, m, c) && !Chained(s.v, x)
    ensures ValuesOk(p, s.v[x := VarSp(c, Chain(ei, m.inst))], s.m, st, r, {}, {})
  {
    hide ValuesOk;
    KeepChosen(p, s.v, s.m, st, r, x, c, ei, m);
  }

  lemma KeepTop(p: Problem, t: Truth, lat: set<Cost>, s: Search, snaps: seq<ModMap>, st: Stamps, r: Store, f: XState,
      c: Cost)
    returns (n: nat)
    requires InvOf(p, t, lat, s, snaps) && s.stk != [] && f == s.stk[|s.stk| - 1] && f.where == Param && f.edge == 0
    requires ValuesOk(p, s.v, s.m, st, r, {}, {})
    ensures ValuesOk(p, s.v, s.m[f.m := ModSp(c, true)], st[f.m := n], r, {}, {})
  {
    hide InvOf, ValuesOk, FrameOk, Setup, ParamsChained;
    TopFacts(p, t, lat, s, snaps, f);
    TopChained(p, t, lat, s, f);
    n := KeepFinished(p, s.v, s.m, st, r, f.m, c);
  }

  lemma TopChained(p: Problem, t: Truth, lat: set<Cost>, s: Search, f: XState)
    requires TopOk(p, t, lat, s, f) && f.where == Param && f.edge == 0
    ensures IsModel(p, f.m) && ParamsChained(p, s.v, f.m, 0)
  {
  }

  // ---------- roots ----------

  lemma StoredRoot(p: Problem, t: Truth, lat: set<Cost>, s: Search, snaps: seq<ModMap>, x: Ref)
    requires InvOf(p, t, lat, s, snaps) && IsVar(p, x)
    ensures x in s.v && Le(s.v[x].cost, t.v(x))
  {
    assert VarOk(p, t, lat, s.v, s.m, x);
  }

  lemma SolvedRoot(p: Problem, t: Truth, lat: set<Cost>, s: Search, snaps: seq<ModMap>, st: Stamps, r: Store, x: Ref)
    requires InvOf(p, t, lat, s, snaps) && ValuesOk(p, s.v, s.m, st, r, {}, {}) && IsVar(p, x) && x in r.have
    ensures StampsOk(p, s.v, s.m, st) && Known(p, s.v, x) && x in r.val && r.val[x] == Eval(p, s.v, s.m, st, x)
    ensures !Given(p.g, x.idx) ==> s.v[x].cost == t.v(x) && Le(t.v(x), Fin(MAX_COST))
  {
    hide InvOf;
    assert ValueOk(p, s.v, s.m, st, r, {}, {}, x);
    ChainedExact(p, t, lat, s, snaps, x);
  }
}
