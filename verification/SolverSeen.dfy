/** Walked checks and finished variables: every state change of the solver keeps track of them. */
module SolverSeen {
  import opened Costs
  import opened Graphs
  import opened SolverState

  lemma StartsPushed(stk: seq<XState>, f: XState)
    requires StartsOk(stk) && f.start == NextStart(stk)
    ensures StartsOk(stk + [f])
  {
    var stk' := stk + [f];
    forall k | 0 <= k < |stk'|
      ensures stk'[k].start == NextStart(stk'[..k])
    {
      assert stk'[..k] == stk[..k];
      assert stk[..|stk|] == stk;
    }
  }

  lemma StartsPopped(stk: seq<XState>)
    requires StartsOk(stk) && stk != []
    ensures StartsOk(stk[..|stk| - 1])
  {
    forall k | 0 <= k < |stk| - 1
      ensures stk[k].start == NextStart(stk[..|stk| - 1][..k])
    {
      assert stk[..|stk| - 1][..k] == stk[..k];
    }
  }

  lemma StartsMoved(stk: seq<XState>, f: XState)
    requires StartsOk(stk) && stk != [] && f.start == stk[|stk| - 1].start
    ensures StartsOk(stk[|stk| - 1 := f])
  {
    var stk' := stk[|stk| - 1 := f];
    forall k | 0 <= k < |stk'|
      ensures stk'[k].start == NextStart(stk'[..k])
    {
      assert stk'[..k] == stk[..k];
    }
  }

  // ---------- endings ----------

  lemma EndingPushed(p: Problem, v: VarMap, w: VarMap, stk: seq<XState>, f: XState, x: Ref)
    requires Ending(p, v, stk, x) && MarksOk(v, stk) && !Marked(v, f.x) && f.x in w
    requires w == v[f.x := w[f.x]] && (f.x in v && Done(v[f.x]) ==> f.beta == MAX_COST)
    ensures Ending(p, w, stk + [f], x)
  {
    var stk' := stk + [f];
    if AtLimit(stk, x) {
      var k :| 0 <= k < |stk| && stk[k].x == x && stk[k].beta == MAX_COST;
      assert stk'[k].x == x && stk'[k].beta == MAX_COST;
    } else if x == f.x {
      assert stk'[|stk|] == f;
    }
  }

  lemma EndsPushed(p: Problem, v: VarMap, w: VarMap, stk: seq<XState>, b: BitMap, dead: set<Ref>, f: XState)
    requires EndsOk(p, v, stk, b, dead) && MarksOk(v, stk) && !Marked(v, f.x) && f.x in w
    requires w == v[f.x := w[f.x]] && (f.x in v && Done(v[f.x]) ==> f.beta == MAX_COST)
    ensures EndsOk(p, w, stk + [f], b, dead)
  {
    hide MarksOk, Ending, HasBits;
    forall x | Ending(p, v, stk, x)
      ensures Ending(p, w, stk + [f], x)
    {
      EndingPushed(p, v, w, stk, f, x);
    }
  }

  /** What leaves the stack after it was solved up to the limit is done. */
  lemma EndingPopped(p: Problem, v: VarMap, stk: seq<XState>, sp: VarSp, x: Ref)
    requires stk != [] && Ending(p, v, stk, x) && MarksOk(v, stk) && !Chained(v, stk[|stk| - 1].x)
    requires sp.st.NoChain? ==> Lt(Fin(stk[|stk| - 1].beta), sp.cost)
    ensures Ending(p, v[stk[|stk| - 1].x := sp], stk[..|stk| - 1], x)
  {
    var n := |stk| - 1;
    assert Marked(v, stk[n].x);
    if AtLimit(stk, x) {
      var k :| 0 <= k < |stk| && stk[k].x == x && stk[k].beta == MAX_COST;
      assert k < n ==> stk[..n][k].x == x && stk[..n][k].beta == MAX_COST;
    }
  }

  lemma EndsPopped(p: Problem, v: VarMap, stk: seq<XState>, b: BitMap, dead: set<Ref>, sp: VarSp)
    requires EndsOk(p, v, stk, b, dead) && stk != [] && MarksOk(v, stk) && !Chained(v, stk[|stk| - 1].x)
    requires sp.st.NoChain? ==> Lt(Fin(stk[|stk| - 1].beta), sp.cost)
    ensures EndsOk(p, v[stk[|stk| - 1].x := sp], stk[..|stk| - 1], b, dead)
  {
    hide MarksOk, Ending, HasBits, Chained;
    forall x | Ending(p, v, stk, x)
      ensures Ending(p, v[stk[|stk| - 1].x := sp], stk[..|stk| - 1], x)
    {
      EndingPopped(p, v, stk, sp, x);
    }
  }

  lemma EndsMoved(p: Problem, v: VarMap, stk: seq<XState>, b: BitMap, dead: set<Ref>, f: XState)
    requires EndsOk(p, v, stk, b, dead) && stk != [] && f.x == stk[|stk| - 1].x && f.beta == stk[|stk| - 1].beta
    ensures EndsOk(p, v, stk[|stk| - 1 := f], b, dead)
  {
    var stk' := stk[|stk| - 1 := f];
    forall x | AtLimit(stk, x)
      ensures AtLimit(stk', x)
    {
      var k :| 0 <= k < |stk| && stk[k].x == x && stk[k].beta == MAX_COST;
      assert stk'[k].x == x && stk'[k].beta == MAX_COST;
    }
    hide AtLimit, HasBits;
  }

  lemma SeenRaised(p: Problem, mm: ModMap, b: BitMap, m: Ref, sp: ModSp)
    requires ModelsSeen(p, mm, b) && IsModel(p, m) && (sp.chain ==> ChecksSeen(p, b, m, |ModelOf(p, m).checks|))
    ensures ModelsSeen(p, mm[m := sp], b)
  {
    hide ChecksSeen;
  }

  // ---------- roots ----------

  lemma NoneUpTo(p: Problem, v: VarMap, roots: seq<Root>)
    ensures UpTo(p, v, roots, 0, 0)
  {
  }

  lemma UpToStart(p: Problem, v: VarMap, roots: seq<Root>, k: nat)
    requires k < |roots| && UpTo(p, v, roots, k, 0)
    ensures UpTo(p, v, roots, k, roots[k].inst)
  {
  }

  lemma UpToNext(p: Problem, v: VarMap, roots: seq<Root>, k: nat, i: nat)
    requires k < |roots| && UpTo(p, v, roots, k, i) && Settled(p, v, Ref(roots[k].xi, i))
    ensures UpTo(p, v, roots, k, i + 1)
  {
  }

  lemma UpToEnd(p: Problem, v: VarMap, roots: seq<Root>, k: nat)
    requires k < |roots| && UpTo(p, v, roots, k, roots[k].end)
    ensures UpTo(p, v, roots, k + 1, 0)
  {
  }

  lemma UpToKept(p: Problem, v: VarMap, w: VarMap, roots: seq<Root>, k: nat, i: nat)
    requires UpTo(p, v, roots, k, i) && forall x :: x in v && Done(v[x]) ==> Settled(p, w, x)
    ensures UpTo(p, w, roots, k, i)
  {
    hide Done;
  }

  /** Everything that is done now is noted. */
  lemma MarkDone(p: Problem, t: Truth, lat: set<Cost>, s: Search, snaps: seq<ModMap>, dead: set<Ref>)
    requires InvOf(p, t, lat, s, snaps) && forall x :: x in dead ==> x in s.v && Done(s.v[x])
    ensures InvOf(p, t, lat, s.(dead := dead), snaps)
  {
    hide Setup, VarsOk, ModsOk, AllBitsOk, HaveOk, StackOk, MarksOk, WorkOk, SnapsOk, StartsOk, ModelsSeen, AtLimit,
        HasBits;
  }

  /** Without work in progress, what was noted is still done. */
  lemma StillDone(p: Problem, t: Truth, lat: set<Cost>, s: Search, snaps: seq<ModMap>)
    requires InvOf(p, t, lat, s, snaps) && s.stk == []
    ensures forall x :: x in s.dead ==> Settled(p, s.v, x)
  {
    hide Setup, VarsOk, ModsOk, AllBitsOk, HaveOk, StackOk, MarksOk, WorkOk, SnapsOk, StartsOk, ModelsSeen, HasBits;
  }

  /** A stuck variable costs at least its bound, which is at least the limit. */
  ghost predicate StuckCost(p: Problem, t: Truth, v: VarMap, x: Ref) {
    !Given(p.g, x.idx) && x in v && Le(Fin(MAX_COST), v[x].cost) && Le(v[x].cost, t.v(x))
  }

  lemma StuckCosts(p: Problem, t: Truth, lat: set<Cost>, s: Search, snaps: seq<ModMap>, x: Ref)
    requires InvOf(p, t, lat, s, snaps) && IsVar(p, x) && Stuck(p, s.v, x)
    ensures StuckCost(p, t, s.v, x)
  {
    assert VarOk(p, t, lat, s.v, s.m, x);
  }

  // ---------- consequences ----------

  /** The first failing instance of a check of a chained model, on a variable without a chain that costs too much,
      has left that variable done without a chain. */
  lemma FailedIsStuck(p: Problem, t: Truth, lat: set<Cost>, s: Search, snaps: seq<ModMap>, m: Ref, e: nat, i: nat)
    requires InvOf(p, t, lat, s, snaps) && s.stk == [] && IsModel(p, m) && m in s.m && s.m[m].chain
    requires IsCheck(p, m, e, i) && CheckRef(p, m, e, i).idx < |p.g.shadows|
    requires forall j: nat :: j < i ==> CheckRef(p, m, e, j).idx < |p.g.shadows| && Passes(p, t, CheckRef(p, m, e, j))
    requires Lt(Fin(MAX_COST), t.v(Guarded(p, CheckRef(p, m, e, i))))
    ensures Stuck(p, s.v, Guarded(p, CheckRef(p, m, e, i)))
  {
    var w := CheckRef(p, m, e, i);
    var x := Guarded(p, w);
    assert IsShadow(p, w);
    assert CheckSeen(p, s.b, m, e) by {
      assert ChecksSeen(p, s.b, m, |ModelOf(p, m).checks|);
    }
    FailedBit(p, t, lat, s, snaps, m, e, i);
    assert Ending(p, s.v, s.stk, x);
    assert VarEquation(p, t, x) && VarOk(p, t, lat, s.v, s.m, x);
  }

  lemma FailedBit(p: Problem, t: Truth, lat: set<Cost>, s: Search, snaps: seq<ModMap>, m: Ref, e: nat, i: nat)
    requires InvOf(p, t, lat, s, snaps) && IsModel(p, m) && e < |ModelOf(p, m).checks| && CheckSeen(p, s.b, m, e)
    requires IsCheck(p, m, e, i) && CheckRef(p, m, e, i).idx < |p.g.shadows| && !Passes(p, t, CheckRef(p, m, e, i))
    requires forall j: nat :: j < i ==> CheckRef(p, m, e, j).idx < |p.g.shadows| && Passes(p, t, CheckRef(p, m, e, j))
    ensures HasBits(s.b, CheckRef(p, m, e, i), Failed)
  {
    hide StackOk, MarksOk, WorkOk, SnapsOk, StartsOk, SeenOk;
    assert IsShadow(p, CheckRef(p, m, e, i)) && BitsOk(p, t, s.b, CheckRef(p, m, e, i));
    if n: nat :|
       n < |CheckInsts(p, m, e)| && HasBits(s.b, CheckRef(p, m, e, n), Failed) && FirstPassed(p, s.b, m, e, n) {
      assert IsCheck(p, m, e, n) && IsShadow(p, CheckRef(p, m, e, n)) && BitsOk(p, t, s.b, CheckRef(p, m, e, n));
      assert n >= i;
    }
  }
}
