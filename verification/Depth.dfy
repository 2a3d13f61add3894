/** How deep the chain solver works: its stacks overflow only on long dependency chains. */
module Depths {
  import opened Costs
  import opened Graphs
  import opened SolverState
  import opened SolverExact
  import opened SolverSeen

  /** Model instance `m` looks at variable instance `y`, as computed parameter or in a check. */
  ghost predicate Takes(p: Problem, m: Ref, y: Ref) {
    || (exists e: nat, j: nat :: IsParam(p, m, e, j) && e < ModelOf(p, m).cparam && ParamRef(p, m, e, j) == y)
    || (exists e: nat, j: nat ::
        IsCheck(p, m, e, j) && CheckRef(p, m, e, j).idx < |p.g.shadows| && Guarded(p, CheckRef(p, m, e, j)) == y)
  }

  /** Some candidate of `x` looks at `y`. */
  ghost predicate Needs(p: Problem, x: Ref, y: Ref) {
    exists ei: nat, i: nat :: IsCand(p, x, ei, i) && Takes(p, CandRef(p, x, ei, i), y)
  }

  /** A chain of dependencies between computed variables. */
  ghost predicate IsChain(p: Problem, xs: seq<Ref>) {
    && |xs| > 0 && (forall k :: 0 <= k < |xs| ==> IsVar(p, xs[k]) && !Given(p.g, xs[k].idx))
    && (forall k :: 0 < k < |xs| ==> Needs(p, xs[k - 1], xs[k]))
  }

  /** Entries on the candidate stack for all of `xs`: one for every nonempty model edge. */
  function Candidates(p: Problem, xs: seq<Ref>): nat
    requires forall x :: x in xs ==> IsVar(p, x)
  {
    if xs == [] then 0
    else Candidates(p, xs[..|xs| - 1]) + |CandList(p, xs[|xs| - 1], NumEdges(p, xs[|xs| - 1]))|
  }

  /** A chain of dependencies that does not fit: too long, or too many candidates on the way to its last variable. */
  ghost predicate Overflows(p: Problem, xs: seq<Ref>) {
    && IsChain(p, xs)
    && (|xs| >= MAX_STK || Candidates(p, xs[..|xs| - 1]) + NumEdges(p, xs[|xs| - 1]) >= MAX_CANDSTK)
  }

  ghost predicate Deep(p: Problem, root: Ref) {
    exists xs :: Overflows(p, xs) && xs[0] == root
  }

  // ---------- the stack is a chain ----------

  /** The variables on the stack. */
  function OnStack(stk: seq<XState>): (xs: seq<Ref>)
    ensures |xs| == |stk| && forall k :: 0 <= k < |xs| ==> xs[k] == stk[k].x
  {
    seq(|stk|, k requires 0 <= k < |stk| => stk[k].x)
  }

  lemma WaitingNeeds(p: Problem, t: Truth, lat: set<Cost>, v: VarMap, f: XState, x: Ref, beta: real)
    requires GraphOk(p.g) && FrameOk(p, t, lat, v, f) && Waiting(p, f, x, beta)
    ensures Needs(p, f.x, x)
  {
    var i: nat :| IsCand(p, f.x, f.ei, i) && CandRef(p, f.x, f.ei, i) == f.m;
    assert ModelOk(p.g, ModelOf(p, f.m));
    if f.where == Shadow {
      assert IsCheck(p, f.m, f.edge, f.it);
    } else {
      assert IsParam(p, f.m, f.edge - 1, f.it);
    }
    assert Takes(p, f.m, x);
  }

  lemma StackChain(p: Problem, t: Truth, lat: set<Cost>, v: VarMap, stk: seq<XState>, x: Ref, beta: real)
    requires GraphOk(p.g) && StackOk(p, t, lat, v, stk) && IsVar(p, x) && !Given(p.g, x.idx)
    requires stk != [] ==> Waiting(p, stk[|stk| - 1], x, beta)
    ensures IsChain(p, OnStack(stk) + [x])
  {
    var xs := OnStack(stk) + [x];
    forall k | 0 < k < |xs|
      ensures Needs(p, xs[k - 1], xs[k])
    {
      var b := if k == |stk| then beta else stk[k].beta;
      assert FrameOk(p, t, lat, v, stk[k - 1]) && Waiting(p, stk[k - 1], xs[k], b);
      WaitingNeeds(p, t, lat, v, stk[k - 1], xs[k], b);
    }
    forall k | 0 <= k < |stk|
      ensures IsVar(p, xs[k]) && !Given(p.g, xs[k].idx)
    {
      assert FrameOk(p, t, lat, v, stk[k]);
    }
  }

  ghost predicate Listed(p: Problem, f: XState) {
    IsVar(p, f.x) && f.cands == CandList(p, f.x, NumEdges(p, f.x))
  }

  /** The next frame's candidates start after those of all variables on the stack. */
  lemma {:induction false} StartIsSum(p: Problem, stk: seq<XState>)
    requires StartsOk(stk) && forall k :: 0 <= k < |stk| ==> Listed(p, stk[k])
    ensures forall x :: x in OnStack(stk) ==> IsVar(p, x)
    ensures NextStart(stk) == Candidates(p, OnStack(stk))
  {
    hide IsVar, CandList, NumEdges;
    if stk != [] {
      var n := |stk| - 1;
      StartsPopped(stk);
      StartIsSum(p, stk[..n]);
      assert OnStack(stk)[..n] == OnStack(stk[..n]);
      assert Listed(p, stk[n]);
    }
  }

  lemma FrameListed(p: Problem, t: Truth, lat: set<Cost>, v: VarMap, f: XState)
    requires GraphOk(p.g) && FrameOk(p, t, lat, v, f)
    ensures Listed(p, f)
  {
  }

  /** What the solver cannot push does not fit. */
  lemma TooDeepIsDeep(p: Problem, t: Truth, lat: set<Cost>, s: Search, snaps: seq<ModMap>, x: Ref, beta: real)
    requires InvOf(p, t, lat, s, snaps) && GraphOk(p.g) && Target(p, s, x, beta)
    requires |s.stk| + 1 >= MAX_STK || NextStart(s.stk) + NumEdges(p, x) >= MAX_CANDSTK
    ensures Deep(p, if s.stk == [] then x else s.stk[0].x)
  {
    hide StateOk, MarksOk, WorkOk, SnapsOk, SeenOk, FrameOk, Waiting, StartsOk, Candidates, IsChain, CandList, NumEdges;
    var xs := OnStack(s.stk) + [x];
    StackChain(p, t, lat, s.v, s.stk, x, beta);
    forall k | 0 <= k < |s.stk|
      ensures Listed(p, s.stk[k])
    {
      FrameListed(p, t, lat, s.v, s.stk[k]);
    }
    StartIsSum(p, s.stk);
    assert xs[..|xs| - 1] == OnStack(s.stk);
    assert Overflows(p, xs);
  }

  // ---------- problems that fit ----------

  lemma NeedsRank(p: Problem, rv: Ref -> nat, rm: Ref -> nat, x: Ref, y: Ref)
    requires WellFormed(p) && Ranked(p, rv, rm) && Needs(p, x, y)
    ensures rv(y) + 2 <= rv(x)
  {
    var ei: nat, i: nat :| IsCand(p, x, ei, i) && Takes(p, CandRef(p, x, ei, i), y);
  }

  lemma {:induction false} ChainRank(p: Problem, rv: Ref -> nat, rm: Ref -> nat, xs: seq<Ref>, k: nat)
    requires WellFormed(p) && Ranked(p, rv, rm) && IsChain(p, xs) && k < |xs|
    ensures rv(xs[k]) + 2 * k <= rv(xs[0])
  {
    hide WellFormed, Ranked;
    if k > 0 {
      ChainRank(p, rv, rm, xs, k - 1);
      NeedsRank(p, rv, rm, xs[k - 1], xs[k]);
    }
  }

  lemma {:induction false} CandListShort(p: Problem, x: Ref, n: nat)
    requires IsVar(p, x) && n <= NumEdges(p, x)
    ensures |CandList(p, x, n)| <= n
  {
    if n > 0 {
      CandListShort(p, x, n - 1);
    }
  }

  lemma {:induction false} FewCandidates(p: Problem, xs: seq<Ref>, edges: nat)
    requires forall x :: x in xs ==> IsVar(p, x) && NumEdges(p, x) <= edges
    ensures Candidates(p, xs) <= |xs| * edges
  {
    if xs != [] {
      var n := |xs| - 1;
      FewCandidates(p, xs[..n], edges);
      CandListShort(p, xs[n], NumEdges(p, xs[n]));
      assert xs[n] in xs;
      assert |xs| * edges == n * edges + edges;
    }
  }

  /** If dependencies are ranked, the root's rank is low and variables have few models, nothing overflows. */
  lemma ShallowFits(p: Problem, rv: Ref -> nat, rm: Ref -> nat, root: Ref, edges: nat)
    requires WellFormed(p) && Ranked(p, rv, rm) && rv(root) / 2 + 1 < MAX_STK
    requires (forall x: Ref :: IsVar(p, x) ==> NumEdges(p, x) <= edges) && (rv(root) / 2 + 1) * edges < MAX_CANDSTK
    ensures !Deep(p, root)
  {
    hide WellFormed, Ranked, Candidates, Needs;
    if xs :| Overflows(p, xs) && xs[0] == root {
      ShortFits(p, rv, rm, xs, edges);
    }
  }

  lemma ShortFits(p: Problem, rv: Ref -> nat, rm: Ref -> nat, xs: seq<Ref>, edges: nat)
    requires WellFormed(p) && Ranked(p, rv, rm) && IsChain(p, xs) && rv(xs[0]) / 2 + 1 < MAX_STK
    requires (forall x: Ref :: IsVar(p, x) ==> NumEdges(p, x) <= edges) && (rv(xs[0]) / 2 + 1) * edges < MAX_CANDSTK
    ensures !Overflows(p, xs)
  {
    hide WellFormed, Ranked, Candidates, Needs, IsVar;
    var n := |xs| - 1;
    ChainRank(p, rv, rm, xs, n);
    assert forall x :: x in xs[..n] ==> x in xs;
    FewCandidates(p, xs[..n], edges);
    assert xs[n] in xs;
    Scaled(n + 1, rv(xs[0]) / 2 + 1, edges);
    OneMore(n, edges);
  }

  lemma OneMore(n: nat, c: nat)
    ensures (n + 1) * c == n * c + c
  {
  }

  lemma Scaled(a: nat, b: nat, c: nat)
    requires a <= b
    ensures a * c <= b * c
  {
  }
}
