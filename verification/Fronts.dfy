/** Invariants of the pruner's propagation, for the bounds of one colour. */
module Fronts {
  import opened Costs
  import opened Graphs
  import opened Heaps
  import opened Bounds

  /** Colour flag and bound of a variable. */
  datatype Mark = Mark(seen: bool, bound: Cost)

  /** Colour flag, running sum or bound, and `p_miss` of a model. */
  datatype Tally = Tally(seen: bool, bound: Cost, miss: nat)

  /** Needed parameters of `m` from `j` on without a bound. */
  function Missing(n: Net, c: Color, v: seq<Mark>, m: nat, j: nat): nat
    requires NetOk(n) && |v| == |n.g.vars| && m < |n.g.models| && j <= |n.g.models[m].params|
    decreases |n.g.models[m].params| - j
  {
    if j == |n.g.models[m].params| then 0
    else (if Needed(c, n.g.models[m].params[j]) && !v[n.g.models[m].params[j].idx].seen then 1
        else 0) + Missing(n, c, v, m, j + 1)
  }

  function BoundOf(k: Mark): real {
    if k.seen && k.bound.Fin? then k.bound.r else 0.0
  }

  /** Summed bounds of the needed parameters of `m` from `j` on that have one. */
  function SeenSum(n: Net, c: Color, v: seq<Mark>, m: nat, j: nat): real
    requires NetOk(n) && |v| == |n.g.vars| && m < |n.g.models| && j <= |n.g.models[m].params|
    decreases |n.g.models[m].params| - j
  {
    if j == |n.g.models[m].params| then 0.0
    else
      (if Needed(c, n.g.models[m].params[j]) then BoundOf(v[n.g.models[m].params[j].idx])
          else 0.0) + SeenSum(n, c, v, m, j + 1)
  }

  /** What a model's cost is bounded by, once all its needed parameters are. */
  function Total(n: Net, c: Color, v: seq<Mark>, m: nat): Cost
    requires NetOk(n) && |v| == |n.g.vars| && m < |n.g.models|
  {
    Costf(n.g.models[m].k, n.g.models[m].c, Fin(Penalty(n, c, m, |n.g.models[m].checks|) + SeenSum(n, c, v, m, 0)))
  }

  /** Variable `x` has just got bound `b`, and its forward edges `es` are still to be told from `i` on. */
  datatype Telling = Telling(es: seq<Edge>, i: nat, b: real)

  predicate TellingOk(n: Net, w: Telling) {
    w.i <= |w.es| && forall j :: 0 <= j < |w.es| ==> w.es[j].idx < |n.g.models|
  }

  function Rest(c: Color, w: Telling, m: nat): nat
    requires w.i <= |w.es|
  {
    CountTo(w.es, w.i, m, c)
  }

  ghost predicate TallyOk(n: Net, c: Color, v: seq<Mark>, t: Tally, m: nat, w: Telling)
    requires NetOk(n) && |v| == |n.g.vars| && m < |n.g.models| && TellingOk(n, w)
  {
    && t.miss == Missing(n, c, v, m, 0) + Rest(c, w, m)
    && t.bound.Fin?
    && (if t.seen then !n.skipM[m] && t.miss == 0 && t.bound == Total(n, c, v, m)
        else t.bound.r + Multiple(Rest(c, w, m), w.b) == SeenSum(n, c, v, m, 0))
  }

  ghost predicate TalliesOk(n: Net, c: Color, v: seq<Mark>, ts: seq<Tally>, w: Telling)
    requires NetOk(n)
  {
    && |v| == |n.g.vars| && |ts| == |n.g.models| && TellingOk(n, w)
    && (forall m :: 0 <= m < |ts| ==> TallyOk(n, c, v, ts[m], m, w))
  }

  /** A derivation of `x` costs `r`. */
  ghost predicate Derived(n: Net, c: Color, x: nat, r: real)
    requires NetOk(n)
  {
    exists d :: Derives(n, c, x, d) && CostOf(n, c, d) == r
  }

  ghost predicate ModelDerived(n: Net, c: Color, m: nat, r: Cost)
    requires NetOk(n)
  {
    r.Fin? && exists d: Deriv :: d.By? && d.m == m && ModelDerives(n, c, d) && CostOf(n, c, d) == r.r
  }

  /** Bounds of variables are costs of derivations, at most `lo`. */
  ghost predicate MarksOk(n: Net, c: Color, v: seq<Mark>, lo: real)
    requires NetOk(n)
  {
    && |v| == |n.g.vars|
    && (forall x :: 0 <= x < |v| && v[x].seen ==>
          !n.skipV[x] && v[x].bound.Fin? && v[x].bound.r <= lo && Derived(n, c, x, v[x].bound.r))
  }

  ghost predicate SeenDerived(n: Net, c: Color, ts: seq<Tally>)
    requires NetOk(n)
  {
    forall m :: 0 <= m < |ts| && ts[m].seen ==> ModelDerived(n, c, m, ts[m].bound)
  }

  /** Models without missing parameters have their bound; those in `but` may still wait for it. */
  ghost predicate Complete(n: Net, ts: seq<Tally>, but: set<nat>) {
    |ts| <= |n.skipM| && forall m :: 0 <= m < |ts| && m !in but && !n.skipM[m] && ts[m].miss == 0 ==> ts[m].seen
  }

  /** Queued bounds are costs of derivations, at least `lo`. */
  ghost predicate QueueOk(n: Net, c: Color, h: multiset<HNode>, lo: real)
    requires NetOk(n)
  {
    forall q :: q in h && q.color == c ==>
      lo <= q.cost && q.xi < |n.g.vars| && !n.skipV[q.xi] && Derived(n, c, q.xi, q.cost)
  }

  /** `x` has a bound of at most `r`, or one of `r` in the queue. */
  ghost predicate Reached(c: Color, v: seq<Mark>, h: multiset<HNode>, x: nat, r: Cost) {
    && x < |v| && r.Fin?
    && ((v[x].seen && Le(v[x].bound, r)) || HNode(r.r, c, x) in h)
  }

  /** All that follows from bounded models and given variables has been taken note of. */
  ghost predicate Covered(n: Net, c: Color, v: seq<Mark>, ts: seq<Tally>, h: multiset<HNode>)
    requires NetOk(n) && |ts| == |n.g.models|
  {
    && (forall m, j ::
        0 <= m < |ts| && ts[m].seen && 0 <= j < |n.g.models[m].rets| && Usable(c, n.g.models[m].rets[j]) ==>
          Reached(c, v, h, n.g.models[m].rets[j].idx, ts[m].bound))
    && (forall x :: 0 <= x < |n.g.vars| && n.given[x] ==> Reached(c, v, h, x, Fin(0.0)))
  }

  /** The invariant of one colour while edges `w` are still to be told and models in `but` may wait for their bounds. */
  ghost predicate During(n: Net, c: Color, v: seq<Mark>, ts: seq<Tally>, h: multiset<HNode>, lo: real, w: Telling,
      but: set<nat>) {
    && NetOk(n) && lo >= 0.0
    && MarksOk(n, c, v, lo) && TalliesOk(n, c, v, ts, w) && SeenDerived(n, c, ts)
    && Complete(n, ts, but) && QueueOk(n, c, h, lo) && Covered(n, c, v, ts, h)
  }

  const NOTHING := Telling([], 0, 0.0)

  /** The invariant between two steps. */
  ghost predicate FrontOk(n: Net, c: Color, v: seq<Mark>, ts: seq<Tally>, h: multiset<HNode>, lo: real) {
    During(n, c, v, ts, h, lo, NOTHING, {})
  }

  ghost predicate SameOf(c: Color, a: multiset<HNode>, b: multiset<HNode>) {
    forall q: HNode :: q.color == c ==> (q in a <==> q in b)
  }

  /** Entries of the other colour than `c` are the same. */
  ghost predicate Kept(c: Color, a: multiset<HNode>, b: multiset<HNode>) {
    forall q: HNode :: q.color != c ==> (q in a <==> q in b)
  }

  lemma KeptTrans(c: Color, a: multiset<HNode>, b: multiset<HNode>, d: multiset<HNode>)
    requires Kept(c, a, b) && Kept(c, b, d)
    ensures Kept(c, a, d)
  {
  }

  lemma KeptSame(c: Color, a: multiset<HNode>)
    ensures Kept(c, a, a)
  {
  }

  lemma KeptInsert(q: HNode, a: multiset<HNode>)
    ensures Kept(q.color, a, a + multiset{q})
  {
  }

  /** Queue entries of the other colour do not matter. */
  lemma OtherColor(n: Net, c: Color, v: seq<Mark>, ts: seq<Tally>, h: multiset<HNode>, h': multiset<HNode>, lo: real,
      w: Telling, but: set<nat>)
    requires During(n, c, v, ts, h, lo, w, but) && SameOf(c, h, h')
    ensures During(n, c, v, ts, h', lo, w, but)
  {
    hide MarksOk, TalliesOk, SeenDerived, Complete, Derived;
  }

  lemma KeptOther(c: Color, o: Color, a: multiset<HNode>, b: multiset<HNode>)
    requires Kept(c, a, b) && o != c
    ensures SameOf(o, a, b)
  {
  }

  /** The least queued cost is a new `lo`. */
  lemma RaiseLow(n: Net, c: Color, v: seq<Mark>, ts: seq<Tally>, h: multiset<HNode>, lo: real, lo': real)
    requires FrontOk(n, c, v, ts, h, lo) && lo <= lo' && forall q :: q in h && q.color == c ==> lo' <= q.cost
    ensures FrontOk(n, c, v, ts, h, lo')
  {
    hide TalliesOk, SeenDerived, Complete, Derived, Covered;
  }

  lemma DuringSizes(n: Net, c: Color, v: seq<Mark>, ts: seq<Tally>, h: multiset<HNode>, lo: real, w: Telling,
      but: set<nat>)
    requires During(n, c, v, ts, h, lo, w, but)
    ensures |v| == |n.g.vars| == |n.given| == |n.skipV| && |ts| == |n.g.models| == |n.skipM| && TellingOk(n, w)
  {
  }

  // ---------- a variable gets its bound ----------

  lemma {:induction false} SeenMore(n: Net, c: Color, v: seq<Mark>, m: nat, j: nat, x: nat, b: real)
    requires NetOk(n) && |v| == |n.g.vars| && m < |n.g.models| && j <= |n.g.models[m].params|
    requires x < |v| && !v[x].seen
    ensures var v' := v[x := Mark(true, Fin(b))]; var k := CountTo(n.g.models[m].params, j, x, c);
            && Missing(n, c, v, m, j) == Missing(n, c, v', m, j) + k
            && SeenSum(n, c, v', m, j) == SeenSum(n, c, v, m, j) + Multiple(k, b)
    decreases |n.g.models[m].params| - j
  {
    ParamVar(n, m, j);
    hide NetOk;
    if j < |n.g.models[m].params| {
      SeenMore(n, c, v, m, j + 1, x, b);
    }
  }

  lemma MarkTallies(n: Net, c: Color, v: seq<Mark>, ts: seq<Tally>, x: nat, b: real)
    requires NetOk(n) && TalliesOk(n, c, v, ts, NOTHING) && x < |v| && !v[x].seen
    ensures TalliesOk(n, c, v[x := Mark(true, Fin(b))], ts, Telling(n.g.vars[x].fwds, 0, b))
  {
    hide GraphOk, BackwardsOk;
    var v', w := v[x := Mark(true, Fin(b))], Telling(n.g.vars[x].fwds, 0, b);
    forall m | 0 <= m < |ts|
      ensures TallyOk(n, c, v', ts[m], m, w)
    {
      SeenMore(n, c, v, m, 0, x, b);
      assert TallyOk(n, c, v, ts[m], m, NOTHING);
      assert CountTo(w.es, 0, m, c) == CountTo(n.g.models[m].params, 0, x, c);
    }
  }

  /** The least queue entry is taken out, and its variable gets its bound. */
  lemma MarkVar(n: Net, c: Color, v: seq<Mark>, ts: seq<Tally>, h: multiset<HNode>, lo: real, x: nat, b: real)
    requires FrontOk(n, c, v, ts, h + multiset{HNode(b, c, x)}, lo)
    requires forall q :: q in h && q.color == c ==> b <= q.cost
    ensures x < |v| && lo <= b
    ensures if v[x].seen then FrontOk(n, c, v, ts, h, b)
            else During(n, c, v[x := Mark(true, Fin(b))], ts, h, b, Telling(n.g.vars[x].fwds, 0, b), {})
  {
    hide TalliesOk, SeenDerived, Complete, Derived, NetOk;
    DuringSizes(n, c, v, ts, h + multiset{HNode(b, c, x)}, lo, NOTHING, {});
    assert HNode(b, c, x) in h + multiset{HNode(b, c, x)};
    if !v[x].seen {
      MarkTallies(n, c, v, ts, x, b);
      MarkCovered(n, c, v, ts, h, x, b);
    }
  }

  lemma MarkCovered(n: Net, c: Color, v: seq<Mark>, ts: seq<Tally>, h: multiset<HNode>, x: nat, b: real)
    requires NetOk(n) && |ts| == |n.g.models| && Covered(n, c, v, ts, h + multiset{HNode(b, c, x)}) && x < |v|
    requires !v[x].seen
    ensures Covered(n, c, v[x := Mark(true, Fin(b))], ts, h)
  {
    hide NetOk;
  }

  // ---------- telling the models ----------

  /** Telling a model about the new bound. */
  function Told(t: Tally, b: real): Tally
    requires t.miss > 0
  {
    Tally(t.seen, Add(t.bound, Fin(b)), t.miss - 1)
  }

  lemma TellTally(n: Net, c: Color, v: seq<Mark>, t: Tally, w: Telling)
    requires NetOk(n) && |v| == |n.g.vars| && TellingOk(n, w) && w.i < |w.es| && Needed(c, w.es[w.i])
    requires TallyOk(n, c, v, t, w.es[w.i].idx, w)
    ensures t.miss > 0 && !t.seen && TallyOk(n, c, v, Told(t, w.b), w.es[w.i].idx, w.(i := w.i + 1))
  {
    hide NetOk, Missing, SeenSum, Total;
  }

  lemma TellOthers(n: Net, c: Color, v: seq<Mark>, t: Tally, m: nat, w: Telling)
    requires NetOk(n) && |v| == |n.g.vars| && TellingOk(n, w) && w.i < |w.es| && m < |n.g.models|
    requires m != w.es[w.i].idx || !Needed(c, w.es[w.i])
    requires TallyOk(n, c, v, t, m, w)
    ensures TallyOk(n, c, v, t, m, w.(i := w.i + 1))
  {
    hide NetOk, Missing, SeenSum, Total;
  }

  lemma TellSkip(n: Net, c: Color, v: seq<Mark>, ts: seq<Tally>, h: multiset<HNode>, lo: real, w: Telling)
    requires During(n, c, v, ts, h, lo, w, {}) && w.i < |w.es| && !Needed(c, w.es[w.i])
    ensures During(n, c, v, ts, h, lo, w.(i := w.i + 1), {})
  {
    hide NetOk, MarksOk, SeenDerived, Complete, QueueOk, Covered, TallyOk;
    forall m | 0 <= m < |ts|
      ensures TallyOk(n, c, v, ts[m], m, w.(i := w.i + 1))
    {
      TellOthers(n, c, v, ts[m], m, w);
    }
  }

  lemma TellTallies(n: Net, c: Color, v: seq<Mark>, ts: seq<Tally>, w: Telling)
    requires NetOk(n) && TalliesOk(n, c, v, ts, w) && w.i < |w.es| && Needed(c, w.es[w.i])
    ensures var m := w.es[w.i].idx; m < |ts| && ts[m].miss > 0 && !ts[m].seen
    ensures TalliesOk(n, c, v, ts[w.es[w.i].idx := Told(ts[w.es[w.i].idx], w.b)], w.(i := w.i + 1))
  {
    hide NetOk, TallyOk;
    var k := w.es[w.i].idx;
    TellTally(n, c, v, ts[k], w);
    forall m | 0 <= m < |ts| && m != k
      ensures TallyOk(n, c, v, ts[m], m, w.(i := w.i + 1))
    {
      TellOthers(n, c, v, ts[m], m, w);
    }
  }

  lemma Tell(n: Net, c: Color, v: seq<Mark>, ts: seq<Tally>, h: multiset<HNode>, lo: real, w: Telling)
    requires During(n, c, v, ts, h, lo, w, {}) && w.i < |w.es| && Needed(c, w.es[w.i])
    ensures var m := w.es[w.i].idx; m < |ts| && ts[m].miss > 0 && !ts[m].seen
    ensures var m := w.es[w.i].idx; var ts' := ts[m := Told(ts[m], w.b)];
            && During(n, c, v, ts', h, lo, w.(i := w.i + 1), if ts'[m].miss == 0 then {m} else {})
  {
    hide NetOk, MarksOk, QueueOk, TalliesOk, ModelDerived, Reached;
    TellTallies(n, c, v, ts, w);
  }

  /** All models have been told. */
  lemma TellEnd(n: Net, c: Color, v: seq<Mark>, ts: seq<Tally>, h: multiset<HNode>, lo: real, w: Telling)
    requires During(n, c, v, ts, h, lo, w, {}) && w.i == |w.es|
    ensures FrontOk(n, c, v, ts, h, lo)
  {
    hide NetOk, MarksOk, SeenDerived, Complete, QueueOk, Covered, Missing, SeenSum, Total;
    forall m | 0 <= m < |ts|
      ensures TallyOk(n, c, v, ts[m], m, NOTHING)
    {
      assert TallyOk(n, c, v, ts[m], m, w);
    }
  }

  // ---------- a model gets its bound ----------

  lemma {:induction false} SumNonNeg(n: Net, c: Color, v: seq<Mark>, lo: real, m: nat, j: nat)
    requires NetOk(n) && MarksOk(n, c, v, lo) && m < |n.g.models| && j <= |n.g.models[m].params|
    ensures SeenSum(n, c, v, m, j) >= 0.0
    decreases |n.g.models[m].params| - j
  {
    if j < |n.g.models[m].params| {
      SumNonNeg(n, c, v, lo, m, j + 1);
      MarkNonNeg(n, c, v, lo, n.g.models[m].params[j].idx);
    }
  }

  lemma MarkNonNeg(n: Net, c: Color, v: seq<Mark>, lo: real, x: nat)
    requires NetOk(n) && MarksOk(n, c, v, lo)
    ensures x < |v| ==> BoundOf(v[x]) >= 0.0
  {
    hide NetOk;
  }

  /** A sum with the bound of `x` among its terms is at least that bound. */
  lemma {:induction false} SumAtLeast(n: Net, c: Color, v: seq<Mark>, lo: real, m: nat, j: nat, x: nat)
    requires NetOk(n) && MarksOk(n, c, v, lo) && m < |n.g.models| && j <= |n.g.models[m].params| && x < |v|
    requires CountTo(n.g.models[m].params, j, x, c) > 0
    ensures SeenSum(n, c, v, m, j) >= BoundOf(v[x])
    decreases |n.g.models[m].params| - j
  {
    hide GraphOk, ForwardsOk, BackwardsOk;
    ParamVar(n, m, j);
    if n.g.models[m].params[j].idx == x && Needed(c, n.g.models[m].params[j]) {
      SumNonNeg(n, c, v, lo, m, j + 1);
    } else {
      SumAtLeast(n, c, v, lo, m, j + 1, x);
      MarkNonNeg(n, c, v, lo, n.g.models[m].params[j].idx);
    }
  }

  lemma ParamVar(n: Net, m: nat, j: nat)
    requires NetOk(n) && m < |n.g.models| && j <= |n.g.models[m].params|
    ensures j < |n.g.models[m].params| ==> n.g.models[m].params[j].idx < |n.g.vars|
  {
    assert ModelOk(n.g, n.g.models[m]);
  }

  /** Without missing parameters from `j` on, these have derivations that cost their bounds. */
  lemma {:induction false} SubDerivs(n: Net, c: Color, v: seq<Mark>, lo: real, m: nat, j: nat)
      returns (subs: seq<Deriv>)
    requires NetOk(n) && MarksOk(n, c, v, lo) && m < |n.g.models| && j <= |n.g.models[m].params|
    requires Missing(n, c, v, m, j) == 0
    ensures |v| == |n.g.vars| && |subs| == |n.g.models[m].params| - j
    ensures forall i :: 0 <= i < |subs| && Needed(c, n.g.models[m].params[j + i]) ==>
      var x := n.g.models[m].params[j + i].idx;
          x < |v| && Derives(n, c, x, subs[i]) && CostOf(n, c, subs[i]) == BoundOf(v[x])
    decreases |n.g.models[m].params| - j
  {
    subs := [];
    if j < |n.g.models[m].params| {
      var rest := SubDerivs(n, c, v, lo, m, j + 1);
      hide NetOk;
      var d := Free;
      if Needed(c, n.g.models[m].params[j]) {
        d := VarDeriv(n, c, v, lo, m, j);
      }
      subs := [d] + rest;
      forall i | 0 <= i < |subs| && Needed(c, n.g.models[m].params[j + i])
        ensures var x := n.g.models[m].params[j + i].idx;
            x < |v| && Derives(n, c, x, subs[i]) && CostOf(n, c, subs[i]) == BoundOf(v[x])
      {
        if i > 0 {
          assert subs[i] == rest[i - 1];
          assert n.g.models[m].params[j + 1 + (i - 1)] == n.g.models[m].params[j + i];
        }
      }
    }
  }

  lemma VarDeriv(n: Net, c: Color, v: seq<Mark>, lo: real, m: nat, j: nat) returns (d: Deriv)
    requires NetOk(n) && MarksOk(n, c, v, lo) && m < |n.g.models| && j < |n.g.models[m].params|
    requires Missing(n, c, v, m, j) == 0
    requires Needed(c, n.g.models[m].params[j])
    ensures var x := n.g.models[m].params[j].idx; x < |v| && Derives(n, c, x, d) && CostOf(n, c, d) == BoundOf(v[x])
  {
    ParamVar(n, m, j);
    hide NetOk, CostOf;
    var x := n.g.models[m].params[j].idx;
    assert v[x].seen;
    d :| Derives(n, c, x, d) && CostOf(n, c, d) == v[x].bound.r;
  }

  lemma {:induction false} SubsCost(n: Net, c: Color, v: seq<Mark>, d: Deriv, j: nat)
    requires NetOk(n) && |v| == |n.g.vars| && d.By? && ModelDerives(n, c, d) && j <= |d.subs|
    requires forall i :: 0 <= i < |d.subs| && Needed(c, n.g.models[d.m].params[i]) ==>
      n.g.models[d.m].params[i].idx < |v| && Derives(n, c, n.g.models[d.m].params[i].idx, d.subs[i])
          && CostOf(n, c, d.subs[i]) == BoundOf(v[n.g.models[d.m].params[i].idx])
    ensures SubCosts(n, c, d, j) == SeenSum(n, c, v, d.m, j)
    decreases |d.subs| - j
  {
    hide NetOk, Derives, CostOf;
    if j < |d.subs| {
      SubsCost(n, c, v, d, j + 1);
    }
  }

  /** A model without missing parameters has a derivation that costs its bound. */
  lemma TotalDerived(n: Net, c: Color, v: seq<Mark>, lo: real, m: nat)
    requires NetOk(n) && MarksOk(n, c, v, lo) && m < |n.g.models| && !n.skipM[m] && Missing(n, c, v, m, 0) == 0
    ensures ModelDerived(n, c, m, Total(n, c, v, m))
    ensures forall x: nat :: ReturnsVar(n, c, m, x) ==> Derived(n, c, x, Total(n, c, v, m).r)
  {
    hide NetOk, CostOf, SubCosts, SeenSum, Penalty, Missing, MarksOk, ReturnsVar;
    var subs := SubDerivs(n, c, v, lo, m, 0);
    var d := By(m, subs);
    assert ModelDerives(n, c, d);
    SubsCost(n, c, v, d, 0);
    CostUnfolds(n, c, d);
    ReturnsDerived(n, c, d);
  }

  lemma ReturnsDerived(n: Net, c: Color, d: Deriv)
    requires NetOk(n) && d.By? && ModelDerives(n, c, d)
    ensures forall x: nat :: ReturnsVar(n, c, d.m, x) ==> Derived(n, c, x, CostOf(n, c, d))
  {
    hide NetOk, CostOf, ReturnsVar;
    forall x: nat | ReturnsVar(n, c, d.m, x)
      ensures Derived(n, c, x, CostOf(n, c, d))
    {
      assert Derives(n, c, x, d);
    }
  }

  /** The bound of a model is at least the bounds of its parameters. */
  lemma TotalAtLeast(n: Net, c: Color, v: seq<Mark>, m: nat, lo: real)
    requires NetOk(n) && |v| == |n.g.vars| && m < |n.g.models| && 0.0 <= lo <= SeenSum(n, c, v, m, 0)
    ensures Total(n, c, v, m).Fin? && lo <= Total(n, c, v, m).r
  {
    hide NetOk, SeenSum, Penalty;
    ModelFine(n, m);
    CostfAtLeast(n.g.models[m].k, n.g.models[m].c,
        Fin(Penalty(n, c, m, |n.g.models[m].checks|) + SeenSum(n, c, v, m, 0)));
  }

  /** Bounds for the first `j` returns of `m` are queued. */
  ghost predicate Queued(n: Net, c: Color, h: multiset<HNode>, m: nat, r: Cost, j: nat)
    requires m < |n.g.models| && j <= |n.g.models[m].rets|
  {
    r.Fin? && forall i :: 0 <= i < j && Usable(c, n.g.models[m].rets[i]) ==>
        HNode(r.r, c, n.g.models[m].rets[i].idx) in h
  }

  /** `m` is ready to get its bound: nothing is missing, and its sum is at least `lo`. */
  ghost predicate Ready(n: Net, c: Color, v: seq<Mark>, ts: seq<Tally>, lo: real, w: Telling, m: nat)
    requires NetOk(n) && |v| == |n.g.vars|
  {
    && m < |ts| == |n.g.models| && TellingOk(n, w) && TallyOk(n, c, v, ts[m], m, w) && ts[m].miss == 0 && !ts[m].seen
    && !n.skipM[m]
    && lo <= SeenSum(n, c, v, m, 0)
  }

  lemma ReadySize(n: Net, c: Color, v: seq<Mark>, ts: seq<Tally>, lo: real, w: Telling, m: nat)
    requires NetOk(n) && |v| == |n.g.vars| && Ready(n, c, v, ts, lo, w, m)
    ensures m < |ts| == |n.g.models|
  {
    hide NetOk;
  }

  lemma ReadyFin(n: Net, c: Color, v: seq<Mark>, ts: seq<Tally>, h: multiset<HNode>, lo: real, w: Telling,
      but: set<nat>, m: nat)
    requires During(n, c, v, ts, h, lo, w, but) && NetOk(n) && |v| == |n.g.vars| && Ready(n, c, v, ts, lo, w, m)
    ensures m < |n.g.models| && Total(n, c, v, m).Fin? && Queued(n, c, h, m, Total(n, c, v, m), 0)
  {
    hide NetOk, MarksOk, TalliesOk, SeenDerived, Complete, QueueOk, Covered, Total;
    TotalAtLeast(n, c, v, m, lo);
  }

  lemma CheckFine(n: Net, m: nat, e: nat)
    requires NetOk(n) && m < |n.g.models| && e < |n.g.models[m].checks|
    ensures GraphOk(n.g) && Checked(n.g, m, e) < |n.skipV|
  {
    assert ModelOk(n.g, n.g.models[m]);
  }

  lemma DropSkipped(n: Net, c: Color, v: seq<Mark>, ts: seq<Tally>, h: multiset<HNode>, lo: real, w: Telling,
      but: set<nat>, m: nat)
    requires During(n, c, v, ts, h, lo, w, but) && m < |n.skipM| && n.skipM[m]
    ensures During(n, c, v, ts, h, lo, w, but - {m})
  {
    hide NetOk, MarksOk, TalliesOk, SeenDerived, QueueOk, Covered;
  }

  lemma DuringNet(n: Net, c: Color, v: seq<Mark>, ts: seq<Tally>, h: multiset<HNode>, lo: real, w: Telling,
      but: set<nat>)
    requires During(n, c, v, ts, h, lo, w, but)
    ensures NetOk(n)
  {
  }

  lemma ReadySum(n: Net, c: Color, v: seq<Mark>, ts: seq<Tally>, lo: real, w: Telling, m: nat)
    requires NetOk(n) && |v| == |n.g.vars| && Ready(n, c, v, ts, lo, w, m)
    ensures Missing(n, c, v, m, 0) == 0 && ts[m].bound == Fin(SeenSum(n, c, v, m, 0))
  {
    hide NetOk, Missing, SeenSum, CountTo;
  }

  /** One return of a model that is getting its bound. */
  lemma QueueReturn(n: Net, c: Color, v: seq<Mark>, ts: seq<Tally>, h: multiset<HNode>, lo: real, w: Telling,
      but: set<nat>, m: nat, j: nat)
    requires During(n, c, v, ts, h, lo, w, but) && Ready(n, c, v, ts, lo, w, m) && j < |n.g.models[m].rets|
    requires Queued(n, c, h, m, Total(n, c, v, m), j)
    ensures Total(n, c, v, m).Fin?
    ensures Usable(c, n.g.models[m].rets[j]) ==>
      var h' := h + multiset{HNode(Total(n, c, v, m).r, c, n.g.models[m].rets[j].idx)};
      During(n, c, v, ts, h', lo, w, but) && Queued(n, c, h', m, Total(n, c, v, m), j + 1)
    ensures !Usable(c, n.g.models[m].rets[j]) ==> Queued(n, c, h, m, Total(n, c, v, m), j + 1)
  {
    hide NetOk, MarksOk, TalliesOk, SeenDerived, Complete, SeenSum, Missing, TallyOk, Derived, Total, Usable,
        ModelDerived;
    DuringSizes(n, c, v, ts, h, lo, w, but);
    ReadySum(n, c, v, ts, lo, w, m);
    TotalAtLeast(n, c, v, m, lo);
    TotalDerived(n, c, v, lo, m);
    if Usable(c, n.g.models[m].rets[j]) {
      ReturnFine(n, c, m, j);
    }
  }

  lemma ReturnFine(n: Net, c: Color, m: nat, j: nat)
    requires NetOk(n) && m < |n.g.models| && !n.skipM[m] && j < |n.g.models[m].rets| && Usable(c, n.g.models[m].rets[j])
    ensures ReturnsVar(n, c, m, n.g.models[m].rets[j].idx) && n.g.models[m].rets[j].idx < |n.g.vars|
    ensures !n.skipV[n.g.models[m].rets[j].idx]
  {
    hide GraphOk, ForwardsOk;
  }

  /** A model with all its returns queued has its bound. */
  lemma MarkModel(n: Net, c: Color, v: seq<Mark>, ts: seq<Tally>, h: multiset<HNode>, lo: real, w: Telling,
      but: set<nat>, m: nat)
    requires During(n, c, v, ts, h, lo, w, but) && Ready(n, c, v, ts, lo, w, m)
    requires Queued(n, c, h, m, Total(n, c, v, m), |n.g.models[m].rets|)
    ensures During(n, c, v, ts[m := Tally(true, Total(n, c, v, m), 0)], h, lo, w, but - {m})
  {
    hide NetOk, MarksOk, QueueOk, SeenSum, Missing, Derived, Total, Usable, ModelDerived, CountTo;
    ReadySum(n, c, v, ts, lo, w, m);
    TotalDerived(n, c, v, lo, m);
    MarkModelCovered(n, c, v, ts, h, m, Total(n, c, v, m));
  }

  lemma MarkModelCovered(n: Net, c: Color, v: seq<Mark>, ts: seq<Tally>, h: multiset<HNode>, m: nat, r: Cost)
    requires NetOk(n) && |ts| == |n.g.models| && |v| == |n.g.vars| && Covered(n, c, v, ts, h) && m < |ts| && !n.skipM[m]
    requires Queued(n, c, h, m, r, |n.g.models[m].rets|)
    ensures Covered(n, c, v, ts[m := Tally(true, r, 0)], h)
  {
    hide NetOk, Usable;
    var ts' := ts[m := Tally(true, r, 0)];
    forall k, j | 0 <= k < |ts| && ts'[k].seen && 0 <= j < |n.g.models[k].rets| && Usable(c, n.g.models[k].rets[j])
      ensures Reached(c, v, h, n.g.models[k].rets[j].idx, ts'[k].bound)
    {
      if k == m {
        ReturnFine(n, c, m, j);
      }
    }
  }

  lemma {:induction false} CountMono(es: seq<Edge>, i: nat, j: nat, m: nat, c: Color)
    requires j <= i <= |es|
    ensures CountTo(es, i, m, c) <= CountTo(es, j, m, c)
    decreases i - j
  {
    if j < i {
      CountMono(es, i, j + 1, m, c);
    }
  }

  /** A model that misses nothing more was told about `x` last, and `x` has the largest bound so far. */
  lemma TellReady(n: Net, c: Color, v: seq<Mark>, ts: seq<Tally>, h: multiset<HNode>, lo: real, w: Telling, x: nat)
    requires w.i < |w.es| && During(n, c, v, ts, h, lo, w.(i := w.i + 1), {w.es[w.i].idx})
    requires x < |v| && v[x] == Mark(true, Fin(lo)) && w.es == n.g.vars[x].fwds && w.i < |w.es| && Needed(c, w.es[w.i])
    requires var m := w.es[w.i].idx; m < |ts| && ts[m].miss == 0 && !ts[m].seen && !n.skipM[m]
    ensures Ready(n, c, v, ts, lo, w.(i := w.i + 1), w.es[w.i].idx)
  {
    hide GraphOk, BackwardsOk, SeenDerived, Complete, QueueOk, Covered, Missing, SeenSum, Derived;
    var m := w.es[w.i].idx;
    CountMono(w.es, w.i, 0, m, c);
    assert CountTo(w.es, 0, m, c) == CountTo(n.g.models[m].params, 0, x, c);
    SumAtLeast(n, c, v, lo, m, 0, x);
    assert TallyOk(n, c, v, ts[m], m, w.(i := w.i + 1));
  }

  // ---------- the start ----------

  predicate Fresh(k: Mark) {
    !k.seen && k.bound == Fin(0.0)
  }

  lemma {:induction false} FreshSums(n: Net, c: Color, v: seq<Mark>, m: nat, j: nat)
    requires NetOk(n) && |v| == |n.g.vars| && m < |n.g.models| && j <= |n.g.models[m].params|
    requires forall x :: 0 <= x < |v| ==> Fresh(v[x])
    ensures SeenSum(n, c, v, m, j) == 0.0
    ensures c.Black? ==> Missing(n, c, v, m, j) == |n.g.models[m].params| - j
    decreases |n.g.models[m].params| - j
  {
    ParamVar(n, m, j);
    hide NetOk;
    if j < |n.g.models[m].params| {
      FreshSums(n, c, v, m, j + 1);
    }
  }

  /** `prune_init_mstate` and `prune_insert_given`: only given variables are queued, at no cost. */
  ghost predicate Started(n: Net, c: Color, v: seq<Mark>, ts: seq<Tally>, h: multiset<HNode>)
    requires NetOk(n)
  {
    && |v| == |n.g.vars| && (forall x :: 0 <= x < |v| ==> Fresh(v[x])) && !FlagsClash(n)
    && |ts| == |n.g.models| && (forall m :: 0 <= m < |ts| ==> ts[m] == Tally(false, Fin(0.0), Missing(n, c, v, m, 0)))
    && (forall q :: q in h && q.color == c ==> q.cost == 0.0 && q.xi < |n.g.vars| && n.given[q.xi])
    && (forall x :: 0 <= x < |n.g.vars| && n.given[x] ==> HNode(0.0, c, x) in h)
  }

  function Upto(k: nat, l: nat): (s: set<nat>)
    ensures forall m :: m in s <==> k <= m < l
    decreases l - k
  {
    if k >= l then {} else {k} + Upto(k + 1, l)
  }

  lemma StartTallies(n: Net, c: Color, v: seq<Mark>, ts: seq<Tally>, h: multiset<HNode>)
    requires NetOk(n) && Started(n, c, v, ts, h)
    ensures TalliesOk(n, c, v, ts, NOTHING)
  {
    forall m | 0 <= m < |ts|
      ensures TallyOk(n, c, v, ts[m], m, NOTHING)
    {
      FreshSums(n, c, v, m, 0);
      assert Multiple(0, 0.0) == 0.0;
    }
  }

  lemma Start(n: Net, c: Color, v: seq<Mark>, ts: seq<Tally>, h: multiset<HNode>)
    requires NetOk(n) && Started(n, c, v, ts, h)
    ensures During(n, c, v, ts, h, 0.0, NOTHING, Upto(0, |n.g.models|))
  {
    hide GraphOk, ForwardsOk, BackwardsOk, TalliesOk;
    StartTallies(n, c, v, ts, h);
    forall q | q in h && q.color == c
      ensures Derived(n, c, q.xi, q.cost)
    {
      assert Derives(n, c, q.xi, Free);
    }
  }

  /** A model that is left alone need not be waited for. */
  lemma ConstSkip(n: Net, c: Color, v: seq<Mark>, ts: seq<Tally>, h: multiset<HNode>, but: set<nat>, but': set<nat>,
      m: nat)
    requires During(n, c, v, ts, h, 0.0, NOTHING, but) && m < |ts| && m < |n.skipM|
    requires (n.skipM[m] || ts[m].miss != 0 || ts[m].seen)
    requires but - {m} <= but'
    ensures During(n, c, v, ts, h, 0.0, NOTHING, but')
  {
    hide NetOk, TalliesOk, MarksOk, QueueOk, Covered, SeenDerived;
  }

  lemma ConstReady(n: Net, c: Color, v: seq<Mark>, ts: seq<Tally>, h: multiset<HNode>, but: set<nat>, m: nat)
    requires During(n, c, v, ts, h, 0.0, NOTHING, but) && m < |ts| && m < |n.skipM| && !n.skipM[m]
    requires ts[m].miss == 0 && !ts[m].seen
    ensures |v| == |n.g.vars| && Ready(n, c, v, ts, 0.0, NOTHING, m)
  {
    hide SeenDerived, Complete, QueueOk, Covered;
    assert TallyOk(n, c, v, ts[m], m, NOTHING);
    SumNonNeg(n, c, v, 0.0, m, 0);
  }

  // ---------- the end ----------

  /** The bounds once `prune_mark_unreachable` has put infinity where there is none. */
  function LimitsOf(v: seq<Mark>, ts: seq<Tally>): Limits {
    Limits(seq(|v|, x requires 0 <= x < |v| => if v[x].seen then v[x].bound else Inf),
           seq(|ts|, m requires 0 <= m < |ts| => if ts[m].seen then ts[m].bound else Inf))
  }

  lemma {:induction false} SumKnown(n: Net, c: Color, v: seq<Mark>, l: Limits, lo: real, m: nat, j: nat)
    requires NetOk(n) && MarksOk(n, c, v, lo) && m < |n.g.models| && j <= |n.g.models[m].params|
    requires |l.v| == |v| && forall x :: 0 <= x < |v| ==> l.v[x] == if v[x].seen then v[x].bound else Inf
    ensures BoundSum(n, c, l.v, m, j) == if Missing(n, c, v, m, j) == 0 then Fin(SeenSum(n, c, v, m, j)) else Inf
    decreases |n.g.models[m].params| - j
  {
    hide GraphOk, ForwardsOk, BackwardsOk, Derived, Penalty;
    if j < |n.g.models[m].params| {
      ParamVar(n, m, j);
      SumKnown(n, c, v, l, lo, m, j + 1);
    }
  }

  lemma EndModel(n: Net, c: Color, v: seq<Mark>, ts: seq<Tally>, h: multiset<HNode>, lo: real, l: Limits, m: nat)
    requires FrontOk(n, c, v, ts, h, lo) && m < |n.g.models| && l == LimitsOf(v, ts)
    ensures l.m[m] == if n.skipM[m] then Inf else ModelBound(n, c, l.v, m)
  {
    assert TallyOk(n, c, v, ts[m], m, NOTHING);
    SumKnown(n, c, v, l, lo, m, 0);
    hide MarksOk, SeenDerived, QueueOk, Covered, Missing, SeenSum, Penalty, NetOk;
  }

  /** With an empty queue the bounds are the least ones. */
  lemma EndLeast(n: Net, c: Color, v: seq<Mark>, ts: seq<Tally>, h: multiset<HNode>, lo: real)
    requires FrontOk(n, c, v, ts, h, lo) && forall q :: q in h ==> q.color != c
    ensures LeastBounds(n, c, LimitsOf(v, ts))
  {
    hide NetOk, TalliesOk, QueueOk, ModelBound, Derives, CostOf, ModelDerives;
    var l := LimitsOf(v, ts);
    EndSizes(n, c, v, ts, h, lo);
    forall m | 0 <= m < |n.g.models|
      ensures l.m[m] == if n.skipM[m] then Inf else ModelBound(n, c, l.v, m)
    {
      EndModel(n, c, v, ts, h, lo, l, m);
    }
    forall m, x | 0 <= m < |n.g.models| && 0 <= x < |n.g.vars| && ReturnsVar(n, c, m, x)
      ensures Le(l.v[x], l.m[m])
    {
      EndReturn(n, c, v, ts, h, lo, m, x);
    }
    EndAttained(n, c, v, ts, h, lo);
  }

  lemma EndSizes(n: Net, c: Color, v: seq<Mark>, ts: seq<Tally>, h: multiset<HNode>, lo: real)
    requires FrontOk(n, c, v, ts, h, lo)
    ensures Sizes(n, LimitsOf(v, ts)) && |n.given| == |n.g.vars| && |n.skipM| == |n.g.models|
  {
  }

  lemma EndReturn(n: Net, c: Color, v: seq<Mark>, ts: seq<Tally>, h: multiset<HNode>, lo: real, m: nat, x: nat)
    requires FrontOk(n, c, v, ts, h, lo) && forall q :: q in h ==> q.color != c
    requires m < |n.g.models| && x < |n.g.vars| && ReturnsVar(n, c, m, x)
    ensures Le(LimitsOf(v, ts).v[x], LimitsOf(v, ts).m[m])
  {
    EndSizes(n, c, v, ts, h, lo);
    hide NetOk, TalliesOk, QueueOk, MarksOk, SeenDerived, Complete;
    if ts[m].seen {
      var j :| 0 <= j < |n.g.models[m].rets| && n.g.models[m].rets[j].idx == x && Usable(c, n.g.models[m].rets[j]);
      assert Reached(c, v, h, n.g.models[m].rets[j].idx, ts[m].bound);
    }
  }

  lemma EndAttained(n: Net, c: Color, v: seq<Mark>, ts: seq<Tally>, h: multiset<HNode>, lo: real)
    requires FrontOk(n, c, v, ts, h, lo)
    ensures Sizes(n, LimitsOf(v, ts)) && Attained(n, c, LimitsOf(v, ts))
  {
    hide NetOk, TallyOk, QueueOk, Complete, Covered, Derives, CostOf, ModelDerives;
  }

  // ---------- progress ----------

  function Unseen(v: seq<Mark>): nat {
    if v == [] then 0 else (if v[0].seen then 0 else 1) + Unseen(v[1..])
  }

  lemma {:induction false} UnseenLess(v: seq<Mark>, x: nat, b: Cost)
    requires x < |v| && !v[x].seen
    ensures Unseen(v[x := Mark(true, b)]) == Unseen(v) - 1
  {
    var w := v[x := Mark(true, b)];
    if x == 0 {
      assert w[1..] == v[1..];
    } else {
      assert w[1..] == v[1..][x - 1 := Mark(true, b)];
      UnseenLess(v[1..], x - 1, b);
    }
  }
}
