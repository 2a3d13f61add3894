/** Stored bounds only grow: every state change of the solver keeps to what was stored before. */
module SolverPast {
  import opened Costs
  import opened Graphs
  import opened SolverState

  lemma FloorsVar(p: Problem, v: VarMap, mm: ModMap, x: Ref, sp: VarSp)
    requires FloorsOk(p, v, mm) && (sp.st.NoChain? ==> AtMostCands(p, mm, x, sp.cost))
    ensures FloorsOk(p, v[x := sp], mm)
  {
    hide AtMostCands;
  }

  lemma FloorsRaised(p: Problem, v: VarMap, mm: ModMap, m: Ref, sp: ModSp)
    requires FloorsOk(p, v, mm) && m in mm && Le(mm[m].cost, sp.cost)
    ensures FloorsOk(p, v, mm[m := sp])
  {
    forall x: Ref | IsVar(p, x) && x in v && v[x].st.NoChain?
      ensures AtMostCands(p, mm[m := sp], x, v[x].cost)
    {
      assert AtMostCands(p, mm, x, v[x].cost);
    }
  }

  /** The mark is below every bound. */
  lemma MarkFloor(p: Problem, t: Truth, lat: set<Cost>, v: VarMap, mm: ModMap, x: Ref)
    requires WellFormed(p) && ModsOk(p, t, lat, v, mm)
    ensures AtMostCands(p, mm, x, Fin(SP_MARK))
  {
    forall ei: nat, i: nat | IsCand(p, x, ei, i)
      ensures CandRef(p, x, ei, i) in mm && Le(Fin(SP_MARK), mm[CandRef(p, x, ei, i)].cost)
    {
      var m := CandRef(p, x, ei, i);
      assert IsModel(p, m) && ModOk(p, t, lat, v, mm, m) && ModelOk(p.g, ModelOf(p, m));
    }
  }

  /** `c` is the least bound of a candidate of `x`. */
  ghost predicate LeastCand(p: Problem, mm: ModMap, x: Ref, c: Cost) {
    && AtMostCands(p, mm, x, c)
    && (c.Inf? || exists ei: nat, i: nat ::
          IsCand(p, x, ei, i) && CandRef(p, x, ei, i) in mm && mm[CandRef(p, x, ei, i)].cost == c)
  }

  lemma PastMarked(p: Problem, t: Truth, v: VarMap, mm: ModMap, past: set<Moment>, x: Ref)
    requires PastOk(p, t, v, mm, past) && !Chained(v, x)
    ensures PastOk(p, t, v[x := VarSp(Fin(SP_MARK), NoChain)], mm, past)
  {
    hide WasLow, Below;
    var w := v[x := VarSp(Fin(SP_MARK), NoChain)];
    forall h | h in past
      ensures Risen(p, h, w, mm)
    {
      forall y: Ref | IsVar(p, y) && y in h.v && !Marked(h.v, y)
        ensures y in w && (Marked(w, y) || NotLess(h.v, w, y))
      {
        assert y in v && (Marked(v, y) || NotLess(h.v, v, y));
      }
    }
  }

  /** What was stored for `x` before is at most the least bound of its candidates now. */
  lemma OldBelowLeast(p: Problem, t: Truth, mm: ModMap, h: Moment, x: Ref, c: Cost)
    requires WasLow(p, t, h) && Below(h.m, mm) && LeastCand(p, mm, x, c)
    requires IsVar(p, x) && x in h.v && h.v[x].st.NoChain?
    ensures Le(h.v[x].cost, c)
  {
    assert AtMostCands(p, h.m, x, h.v[x].cost);
  }

  lemma PopRises(p: Problem, t: Truth, v: VarMap, mm: ModMap, h: Moment, x: Ref, sp: VarSp)
    requires WasLow(p, t, h) && Risen(p, h, v, mm) && Marked(v, x) && !Chained(v, x) && IsVar(p, x)
    requires if sp.st.Chain? then sp.cost == t.v(x) else LeastCand(p, mm, x, sp.cost)
    ensures Risen(p, h, v[x := sp], mm)
  {
    hide Below, FloorsOk, LeastCand;
    var w := v[x := sp];
    if x in h.v && sp.st.NoChain? {
      assert !Chained(h.v, x);
      OldBelowLeast(p, t, mm, h, x, sp.cost);
    }
    forall y: Ref | IsVar(p, y) && y in h.v && !Marked(h.v, y)
      ensures y in w && (Marked(w, y) || NotLess(h.v, w, y))
    {
      assert y in v && (Marked(v, y) || NotLess(h.v, v, y));
    }
  }

  lemma PastPopped(p: Problem, t: Truth, v: VarMap, mm: ModMap, past: set<Moment>, x: Ref, sp: VarSp)
    requires PastOk(p, t, v, mm, past) && Marked(v, x) && !Chained(v, x) && IsVar(p, x)
    requires if sp.st.Chain? then sp.cost == t.v(x) else LeastCand(p, mm, x, sp.cost)
    ensures PastOk(p, t, v[x := sp], mm, past)
  {
    hide WasLow, Risen, LeastCand;
    forall h | h in past
      ensures Risen(p, h, v[x := sp], mm)
    {
      PopRises(p, t, v, mm, h, x, sp);
    }
  }

  lemma PastRaised(p: Problem, t: Truth, v: VarMap, mm: ModMap, past: set<Moment>, m: Ref, sp: ModSp)
    requires PastOk(p, t, v, mm, past) && m in mm && Le(mm[m].cost, sp.cost)
    ensures PastOk(p, t, v, mm[m := sp], past)
  {
    hide WasLow, NotLess, Extends;
  }

  /** What is stored now is noted. */
  lemma NotePast(p: Problem, t: Truth, lat: set<Cost>, s: Search, snaps: seq<ModMap>)
    requires InvOf(p, t, lat, s, snaps)
    ensures InvOf(p, t, lat, s.(past := s.past + {Moment(s.v, s.m)}), snaps)
  {
    hide Setup, VarsOk, ModsOk, AllBitsOk, HaveOk, StackOk, MarksOk, WorkOk, SnapsOk, StartsOk, ModelsSeen, EndsOk,
        FloorsOk, Risen, WasLow;
    RisenSelf(p, s.v, s.m);
    NowLow(p, t, lat, s);
  }

  lemma RisenSelf(p: Problem, v: VarMap, mm: ModMap)
    ensures Risen(p, Moment(v, mm), v, mm)
  {
  }

  lemma NowLow(p: Problem, t: Truth, lat: set<Cost>, s: Search)
    requires StateOk(p, t, lat, s)
    ensures WasLow(p, t, Moment(s.v, s.m))
  {
    hide Setup, ModsOk, AllBitsOk, HaveOk, FloorsOk;
    forall x: Ref | IsVar(p, x) && x in s.v
      ensures Le(s.v[x].cost, t.v(x))
    {
      assert VarOk(p, t, lat, s.v, s.m, x);
    }
  }

  /** Nothing that was noted was higher. */
  lemma PastRisen(p: Problem, t: Truth, lat: set<Cost>, s: Search, snaps: seq<ModMap>, h: Moment)
    requires InvOf(p, t, lat, s, snaps) && h in s.past
    ensures Risen(p, h, s.v, s.m)
  {
    hide StateOk, StackOk, MarksOk, WorkOk, SnapsOk, StartsOk, SeenOk, Risen;
  }

  /** Without work in progress nothing is marked. */
  lemma IdleUnmarked(p: Problem, t: Truth, lat: set<Cost>, s: Search, snaps: seq<ModMap>, x: Ref)
    requires InvOf(p, t, lat, s, snaps) && s.stk == []
    ensures !Marked(s.v, x)
  {
    hide StateOk, StackOk, WorkOk, SnapsOk, StartsOk, SeenOk, PastOk;
  }
}
