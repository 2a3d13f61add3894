/** On acyclic problems the cost equations have only one solution. */
module Uniqueness {
  import opened Graphs

  // ---------- costs depend only on what is behind ----------

  ghost predicate SameParams(p: Problem, t: Truth, u: Truth, m: Ref) {
    forall e: nat, i: nat :: IsParam(p, m, e, i) ==> t.v(ParamRef(p, m, e, i)) == u.v(ParamRef(p, m, e, i))
  }

  ghost predicate SameChecks(p: Problem, t: Truth, u: Truth, m: Ref)
    requires GraphOk(p.g)
  {
    forall e: nat, i: nat :: IsCheck(p, m, e, i) && CheckRef(p, m, e, i).idx < |p.g.shadows| ==>
      t.v(Guarded(p, CheckRef(p, m, e, i))) == u.v(Guarded(p, CheckRef(p, m, e, i)))
  }

  lemma {:induction false} MaxSame(p: Problem, t: Truth, u: Truth, m: Ref, e: nat, i: nat)
    requires IsModel(p, m) && e < |ModelOf(p, m).params| && i <= |ParamInsts(p, m, e)| && SameParams(p, t, u, m)
    ensures MaxCost(p, t, m, e, i) == MaxCost(p, u, m, e, i)
  {
    if i > 0 {
      MaxSame(p, t, u, m, e, i - 1);
      assert IsParam(p, m, e, i - 1);
    }
  }

  lemma {:induction false} SumSame(p: Problem, t: Truth, u: Truth, m: Ref, e: nat)
    requires IsModel(p, m) && e <= |ModelOf(p, m).params| && SameParams(p, t, u, m)
    ensures ParamSum(p, t, m, e) == ParamSum(p, u, m, e)
    decreases |ModelOf(p, m).params| - e
  {
    hide SameParams;
    if e < |ModelOf(p, m).params| {
      SumSame(p, t, u, m, e + 1);
      MaxSame(p, t, u, m, e, |ParamInsts(p, m, e)|);
    }
  }

  lemma FailsSame(p: Problem, t: Truth, u: Truth, m: Ref, e: nat)
    requires GraphOk(p.g) && IsModel(p, m) && e < |ModelOf(p, m).checks| && SameChecks(p, t, u, m)
    ensures CheckFails(p, t, m, e) <==> CheckFails(p, u, m, e)
  {
    assert ModelOk(p.g, ModelOf(p, m));
    forall i: nat | IsCheck(p, m, e, i)
      ensures Passes(p, t, CheckRef(p, m, e, i)) <==> Passes(p, u, CheckRef(p, m, e, i))
    {
    }
  }

  lemma {:induction false} PenaltiesSame(p: Problem, t: Truth, u: Truth, m: Ref, e: nat)
    requires GraphOk(p.g) && IsModel(p, m) && e <= |ModelOf(p, m).checks| && SameChecks(p, t, u, m)
    ensures Penalties(p, t, m, e) == Penalties(p, u, m, e)
  {
    hide GraphOk, SameChecks, CheckFails;
    if e > 0 {
      PenaltiesSame(p, t, u, m, e - 1);
      FailsSame(p, t, u, m, e - 1);
    }
  }

  lemma ExactSame(p: Problem, t: Truth, u: Truth, m: Ref)
    requires GraphOk(p.g) && IsModel(p, m) && SameParams(p, t, u, m) && SameChecks(p, t, u, m)
    ensures ExactS(p, t, m) == ExactS(p, u, m)
  {
    PenaltiesSame(p, t, u, m, |ModelOf(p, m).checks|);
    SumSame(p, t, u, m, 0);
  }

  // ---------- uniqueness ----------

  lemma {:induction false} VarUnique(p: Problem, t: Truth, u: Truth, rv: Ref -> nat, rm: Ref -> nat, x: Ref)
    requires WellFormed(p) && Ranked(p, rv, rm) && IsSolution(p, t) && IsSolution(p, u) && IsVar(p, x)
    ensures t.v(x) == u.v(x)
    decreases rv(x)
  {
    hide GraphOk, ModelEquation;
    assert VarEquation(p, t, x) && VarEquation(p, u, x);
    if !Given(p.g, x.idx) {
      forall ei: nat, i: nat | IsCand(p, x, ei, i)
        ensures t.m(CandRef(p, x, ei, i)) == u.m(CandRef(p, x, ei, i))
      {
        ModelUnique(p, t, u, rv, rm, CandRef(p, x, ei, i));
      }
    }
  }

  lemma {:induction false} ModelUnique(p: Problem, t: Truth, u: Truth, rv: Ref -> nat, rm: Ref -> nat, m: Ref)
    requires WellFormed(p) && Ranked(p, rv, rm) && IsSolution(p, t) && IsSolution(p, u) && IsModel(p, m)
    ensures t.m(m) == u.m(m)
    decreases rm(m)
  {
    hide GraphOk, VarEquation, ExactS;
    assert ModelEquation(p, t, m) && ModelEquation(p, u, m);
    forall e: nat, i: nat | IsParam(p, m, e, i)
      ensures t.v(ParamRef(p, m, e, i)) == u.v(ParamRef(p, m, e, i))
    {
      VarUnique(p, t, u, rv, rm, ParamRef(p, m, e, i));
    }
    forall e: nat, i: nat | IsCheck(p, m, e, i)
      ensures t.v(Guarded(p, CheckRef(p, m, e, i))) == u.v(Guarded(p, CheckRef(p, m, e, i)))
    {
      VarUnique(p, t, u, rv, rm, Guarded(p, CheckRef(p, m, e, i)));
    }
    ExactSame(p, t, u, m);
  }

  /** There is only one way to be right. */
  lemma SolutionUnique(p: Problem, t: Truth, u: Truth)
    requires WellFormed(p) && Acyclic(p) && IsSolution(p, t) && IsSolution(p, u)
    ensures forall x: Ref :: IsVar(p, x) ==> t.v(x) == u.v(x)
    ensures forall m: Ref :: IsModel(p, m) ==> t.m(m) == u.m(m)
  {
    var rv: Ref -> nat, rm: Ref -> nat :| Ranked(p, rv, rm);
    hide WellFormed, IsSolution, Ranked;
    forall x: Ref | IsVar(p, x)
      ensures t.v(x) == u.v(x)
    {
      VarUnique(p, t, u, rv, rm, x);
    }
    forall m: Ref | IsModel(p, m)
      ensures t.m(m) == u.m(m)
    {
      ModelUnique(p, t, u, rv, rm, m);
    }
  }
}
