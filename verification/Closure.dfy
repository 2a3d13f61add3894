/** All costs the solver can ever store below a limit lie in one finite set. This is what makes
    a run of real-valued lower bounds that only ever grow stop, on cyclic graphs as well. */
module Closure {
  import opened Costs
  import opened Graphs

  function ModelCostf(g: Graph, m: nat, s: Cost): Cost {
    if m < |g.models| then Costf(g.models[m].k, g.models[m].c, s) else s
  }

  predicate InRange(lim: real, a: Cost) {
    a.Fin? && 0.0 <= a.r <= lim
  }

  /** Start bounds and penalties up to `lim`. */
  ghost function Generators(g: Graph, lim: real): set<Cost> {
    {Fin(0.0)}
    + (set m: nat | m < |g.models| && InRange(lim, Fin(g.models[m].cmin)) :: Fin(g.models[m].cmin))
    + (set m: nat, e: nat | m < |g.models| && e < |g.models[m].checks|
        && InRange(lim, Fin(g.models[m].checks[e].penalty))
         :: Fin(g.models[m].checks[e].penalty))
  }

  /** How a value can arise from a set: by being there, by addition, or by a model's cost function. */
  datatype Origin = Old | Sum(a: Cost, b: Cost) | Image(m: nat, a: Cost)

  ghost predicate Comes(g: Graph, lim: real, s: set<Cost>, v: Cost, o: Origin) {
    match o
    case Old => v in s
    case Sum(a, b) => a in s && b in s && v == Add(a, b) && Le(v, Fin(lim))
    case Image(m, a) => m < |g.models| && a in s && v == ModelCostf(g, m, a) && Le(v, Fin(lim))
  }

  /** `s` holds the generators of `g` and is closed, below `lim`, under addition and under
      every model's cost function. */
  ghost predicate ClosedTo(g: Graph, lim: real, s: set<Cost>) {
    && Generators(g, lim) <= s
    && (forall v, o :: Comes(g, lim, s, v, o) ==> InRange(lim, v) && v in s)
  }

  /** Closed below the solver's limit. */
  ghost predicate Closed(g: Graph, s: set<Cost>) {
    ClosedTo(g, MAX_COST, s)
  }

  /** One round of additions and cost functions. */
  ghost function NextRound(g: Graph, lim: real, s: set<Cost>): set<Cost> {
    s
    + (set a, b {:trigger Add(a, b)} | a in s && b in s && Le(Add(a, b), Fin(lim)) :: Add(a, b))
    + (set m: nat, a {:trigger ModelCostf(g, m, a)} | m < |g.models| && a in s
        && Le(ModelCostf(g, m, a), Fin(lim)) :: ModelCostf(g, m, a))
  }

  /** `s'` holds exactly what comes from `s`. */
  ghost predicate IsNext(g: Graph, lim: real, s: set<Cost>, s': set<Cost>) {
    && (forall v :: v in s' ==> exists o :: Comes(g, lim, s, v, o))
    && (forall v, o :: Comes(g, lim, s, v, o) ==> v in s')
  }

  /** Round after round, starting from the generators. */
  ghost predicate AreRounds(g: Graph, lim: real, rs: seq<set<Cost>>) {
    && 0.0 <= lim && |rs| > 0 && rs[0] == Generators(g, lim)
    && (forall j :: 0 <= j < |rs| - 1 ==> IsNext(g, lim, rs[j], rs[j + 1]))
  }

  lemma NextIsNext(g: Graph, lim: real, s: set<Cost>)
    ensures IsNext(g, lim, s, NextRound(g, lim, s))
  {
    hide ModelCostf;
    forall v | v in NextRound(g, lim, s)
      ensures exists o :: Comes(g, lim, s, v, o)
    {
      if v in s {
        assert Comes(g, lim, s, v, Old);
      } else if a, b :| a in s && b in s && Le(Add(a, b), Fin(lim)) && v == Add(a, b) {
        assert Comes(g, lim, s, v, Sum(a, b));
      } else {
        var m: nat, a :| m < |g.models| && a in s && Le(ModelCostf(g, m, a), Fin(lim)) && v == ModelCostf(g, m, a);
        assert Comes(g, lim, s, v, Image(m, a));
      }
    }
  }

  lemma {:induction false} MakeRounds(g: Graph, lim: real, j: nat) returns (rs: seq<set<Cost>>)
    requires 0.0 <= lim
    ensures |rs| == j + 1 && AreRounds(g, lim, rs)
  {
    hide Comes, NextRound, Generators;
    if j == 0 {
      rs := [Generators(g, lim)];
    } else {
      var r := MakeRounds(g, lim, j - 1);
      NextIsNext(g, lim, r[j - 1]);
      rs := r + [NextRound(g, lim, r[j - 1])];
    }
  }

  /** Zero or at least `eps`. */
  predicate Apart(eps: real, a: Cost) {
    a == Fin(0.0) || (a.Fin? && a.r >= eps)
  }

  /** Every model keeps an argument or raises it by at least `delta`. */
  ghost predicate Steep(g: Graph, lim: real, eps: real, delta: real) {
    && 0.0 < delta <= eps
    && (forall a :: a in Generators(g, lim) ==> Apart(eps, a))
    && (forall m: nat, a {:trigger ModelCostf(g, m, a)} :: m < |g.models| && Apart(eps, a) ==>
          var v := ModelCostf(g, m, a); Apart(eps, v) && (v == a || v.r >= a.r + delta))
  }

  lemma GeneratorsInRange(g: Graph, lim: real)
    requires 0.0 <= lim
    ensures forall a :: a in Generators(g, lim) ==> InRange(lim, a)
  {
  }

  lemma {:induction false} Separated(g: Graph, lim: real, rs: seq<set<Cost>>, eps: real, delta: real, j: nat, v: Cost)
    requires AreRounds(g, lim, rs) && Steep(g, lim, eps, delta) && j < |rs| && v in rs[j]
    ensures InRange(lim, v) && Apart(eps, v)
  {
    GeneratorsInRange(g, lim);
    hide ModelCostf, Generators;
    if j > 0 {
      assert IsNext(g, lim, rs[j - 1], rs[j]);
      var o :| Comes(g, lim, rs[j - 1], v, o);
      match o {
        case Old =>
          Separated(g, lim, rs, eps, delta, j - 1, v);
        case Sum(a, b) =>
          Separated(g, lim, rs, eps, delta, j - 1, a);
          Separated(g, lim, rs, eps, delta, j - 1, b);
        case Image(m, a) =>
          Separated(g, lim, rs, eps, delta, j - 1, a);
      }
    }
  }

  lemma Earlier(delta: real, i: nat, v: real, a: real)
    requires delta > 0.0 && 0.0 <= a <= v - delta && v <= Multiple(i, delta)
    ensures i > 0 && a <= Multiple(i - 1, delta)
  {
  }

  /** Both parts of a value that is not already in `rs[j]` are a full step below it. */
  lemma Smaller(g: Graph, lim: real, rs: seq<set<Cost>>, eps: real, delta: real, j: nat, v: Cost, o: Origin)
    requires AreRounds(g, lim, rs) && Steep(g, lim, eps, delta) && j < |rs| - 1
    requires v in rs[j + 1] && v !in rs[j] && Comes(g, lim, rs[j], v, o)
    ensures !o.Old? && InRange(lim, v) && InRange(lim, o.a) && o.a.r <= v.r - delta
    ensures o.Sum? ==> InRange(lim, o.b) && o.b.r <= v.r - delta
  {
    hide ModelCostf, Generators, IsNext;
    Separated(g, lim, rs, eps, delta, j + 1, v);
    Separated(g, lim, rs, eps, delta, j, o.a);
    if o.Sum? {
      Separated(g, lim, rs, eps, delta, j, o.b);
    }
  }

  /** A small value needs few rounds. */
  lemma {:induction false} LowValuesEarly(g: Graph, lim: real, rs: seq<set<Cost>>, eps: real, delta: real, j: nat,
      i: nat, v: Cost)
    requires AreRounds(g, lim, rs) && Steep(g, lim, eps, delta)
    requires i <= j < |rs| && v in rs[j] && v.Fin? && v.r <= Multiple(i, delta)
    ensures v in rs[i]
    decreases j
  {
    if i < j {
      if v in rs[j - 1] {
        LowValuesEarly(g, lim, rs, eps, delta, j - 1, i, v);
      } else {
        assert IsNext(g, lim, rs[j - 1], rs[j]);
        var o :| Comes(g, lim, rs[j - 1], v, o);
        Smaller(g, lim, rs, eps, delta, j - 1, v, o);
        NewValueEarly(g, lim, rs, eps, delta, j, i, v, o);
      }
    }
  }

  lemma {:induction false} NewValueEarly(g: Graph, lim: real, rs: seq<set<Cost>>, eps: real, delta: real, j: nat,
      i: nat, v: Cost, o: Origin)
    requires AreRounds(g, lim, rs) && Steep(g, lim, eps, delta)
    requires i < j < |rs| && v.Fin? && v.r <= Multiple(i, delta)
    requires !o.Old? && Comes(g, lim, rs[j - 1], v, o)
    requires InRange(lim, v) && InRange(lim, o.a) && o.a.r <= v.r - delta
    requires o.Sum? ==> InRange(lim, o.b) && o.b.r <= v.r - delta
    ensures v in rs[i]
    decreases j, 0
  {
    hide ModelCostf, Generators;
    Earlier(delta, i, v.r, o.a.r);
    LowValuesEarly(g, lim, rs, eps, delta, j - 1, i - 1, o.a);
    if o.Sum? {
      Earlier(delta, i, v.r, o.b.r);
      LowValuesEarly(g, lim, rs, eps, delta, j - 1, i - 1, o.b);
    }
    assert Comes(g, lim, rs[i - 1], v, o);
    assert IsNext(g, lim, rs[i - 1], rs[i]);
  }

  lemma {:induction false} MultipleIsProduct(j: nat, delta: real)
    ensures Multiple(j, delta) == (j as real) * delta
  {
    if j > 0 {
      MultipleIsProduct(j - 1, delta);
    }
  }

  lemma EnoughRounds(lim: real, delta: real) returns (j: nat)
    requires delta > 0.0 && 0.0 <= lim
    ensures lim <= Multiple(j, delta)
  {
    j := (lim / delta).Floor + 1;
    MultipleIsProduct(j, delta);
    MulMono(delta, lim / delta, j as real);
  }

  lemma {:induction false} GeneratorsInRounds(g: Graph, lim: real, rs: seq<set<Cost>>, j: nat)
    requires AreRounds(g, lim, rs) && j < |rs|
    ensures Generators(g, lim) <= rs[j]
  {
    if j > 0 {
      hide Generators;
      GeneratorsInRounds(g, lim, rs, j - 1);
      forall v | v in Generators(g, lim)
        ensures v in rs[j]
      {
        assert Comes(g, lim, rs[j - 1], v, Old) && IsNext(g, lim, rs[j - 1], rs[j]);
      }
    }
  }

  lemma {:induction false} PositiveMinimum(s: set<Cost>) returns (eps: real)
    ensures eps > 0.0
    ensures forall a :: a in s && a.Fin? && a.r > 0.0 ==> a.r >= eps
  {
    if s == {} {
      eps := 1.0;
    } else {
      var x :| x in s;
      var rest := PositiveMinimum(s - {x});
      eps := if x.Fin? && 0.0 < x.r < rest then x.r else rest;
      assert forall a :: a in s ==> a == x || a in s - {x};
    }
  }

  function Gain(m: Model, eps: real): Cost {
    Fin((m.c - 1.0) * eps)
  }

  lemma RaiseAtLeast(k: real, c: real, eps: real, delta: real, a: real)
    requires k >= 0.0 && c >= 1.0 && 0.0 < delta <= eps <= a
    requires k > 0.0 ==> k >= eps
    requires c > 1.0 ==> (c - 1.0) * eps >= delta
    ensures k + c * a == a || k + c * a >= a + delta
  {
    if c > 1.0 {
      MulMono(c - 1.0, eps, a);
      assert c * a == a + (c - 1.0) * a;
    }
  }

  lemma ModelSteep(m: Model, eps: real, delta: real, a: Cost)
    requires m.k >= 0.0 && m.c >= 1.0 && 0.0 < delta <= eps
    requires m.k > 0.0 ==> m.k >= eps
    requires m.c > 1.0 ==> Gain(m, eps).r >= delta
    requires Apart(eps, a)
    ensures var v := Costf(m.k, m.c, a); Apart(eps, v) && (v == a || v.r >= a.r + delta)
  {
    if a.r > 0.0 {
      RaiseAtLeast(m.k, m.c, eps, delta, a.r);
    } else {
      assert m.c * a.r == 0.0;
    }
  }

  lemma GainPositive(m: Model, eps: real)
    requires m.c > 1.0 && eps > 0.0
    ensures Gain(m, eps).r > 0.0
  {
    MulMonoStrict(eps, 0.0, m.c - 1.0);
  }

  lemma GraphSteep(g: Graph, lim: real) returns (eps: real, delta: real)
    requires GraphOk(g) && 0.0 <= lim
    ensures Steep(g, lim, eps, delta)
  {
    var ks := set m: nat | m < |g.models| :: Fin(g.models[m].k);
    GeneratorsInRange(g, lim);
    hide Generators;
    eps := PositiveMinimum(Generators(g, lim) + ks);
    var gains := {Fin(eps)} + set m: nat | m < |g.models| :: Gain(g.models[m], eps);
    delta := PositiveMinimum(gains);
    assert Fin(eps) in gains;
    forall m: nat, a {:trigger ModelCostf(g, m, a)} | m < |g.models| && Apart(eps, a)
      ensures var v := ModelCostf(g, m, a); Apart(eps, v) && (v == a || v.r >= a.r + delta)
    {
      assert ModelOk(g, g.models[m]);
      assert Fin(g.models[m].k) in ks;
      assert Gain(g.models[m], eps) in gains;
      if g.models[m].c > 1.0 {
        GainPositive(g.models[m], eps);
      }
      ModelSteep(g.models[m], eps, delta, a);
    }
  }

  /** The costs up to any limit that the generators of a graph can produce are finitely many. */
  lemma ClosureExists(g: Graph, lim: real) returns (s: set<Cost>)
    requires GraphOk(g) && 0.0 <= lim
    ensures ClosedTo(g, lim, s)
  {
    var eps, delta := GraphSteep(g, lim);
    var j := EnoughRounds(lim, delta);
    var rs := MakeRounds(g, lim, j + 1);
    s := rs[j];
    GeneratorsInRounds(g, lim, rs, j);
    forall v, o | Comes(g, lim, s, v, o)
      ensures InRange(lim, v) && v in s
    {
      assert IsNext(g, lim, rs[j], rs[j + 1]);
      Separated(g, lim, rs, eps, delta, j + 1, v);
      LowValuesEarly(g, lim, rs, eps, delta, j + 1, j, v);
    }
  }
}
