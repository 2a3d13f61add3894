/** Building the graph that is left after pruning: what `_prune` keeps, split and sorted as the graph builder does. */
module Rebuild {
  import opened Costs
  import opened Graphs
  import opened Bounds
  import opened Selection
  import opened Optimum

  // ---------- the builder's exchange sort ----------

  /** `a[..n]` is sorted by `key`, from position `j` on only among the first `j`. */
  predicate SortedTo<T>(s: seq<T>, key: T -> Cost, j: nat, n: nat) {
    j <= n <= |s| && forall i, l :: 0 <= i < j && i < l < n ==> Le(key(s[i]), key(s[l]))
  }

  /** After a swap with a smaller element, the prefix is still sorted against the rest. */
  lemma SwapSorted<T>(s: seq<T>, key: T -> Cost, j: nat, n: nat, k: nat)
    requires SortedTo(s, key, j, n) && j < k < n
    ensures SortedTo(s[j := s[k]][k := s[j]], key, j, n)
  {
  }

  lemma SwapBag<T>(s: seq<T>, j: nat, k: nat)
    requires j < |s| && k < |s|
    ensures multiset(s[j := s[k]][k := s[j]]) == multiset(s)
  {
  }

  /** The edge sort of `g_reorder_edges`, on the first `n` elements. */
  method Reorder<T>(a: array<T>, n: nat, key: T -> Cost)
    requires n <= a.Length
    modifies a
    ensures SortedTo(a[..], key, n, n) && multiset(a[..]) == multiset(old(a[..])) && a[n..] == old(a[n..])
    ensures multiset(a[..n]) == multiset(old(a[..n]))
  {
    for j := 0 to n
      invariant SortedTo(a[..], key, j, n) && multiset(a[..]) == multiset(old(a[..])) && a[n..] == old(a[n..])
    {
      for k := j + 1 to n
        invariant SortedTo(a[..], key, j, n) && multiset(a[..]) == multiset(old(a[..])) && a[n..] == old(a[n..])
        invariant forall l :: j < l < k ==> Le(key(a[j]), key(a[l]))
      {
        OneExchange(a, n, key, j, k);
      }
    }
    PrefixBag(a[..], old(a[..]), n);
  }

  lemma PrefixBag<T>(s: seq<T>, t: seq<T>, n: nat)
    requires n <= |s| == |t| && multiset(s) == multiset(t) && s[n..] == t[n..]
    ensures multiset(s[..n]) == multiset(t[..n])
  {
    assert s == s[..n] + s[n..] && t == t[..n] + t[n..];
    assert multiset(s[..n]) == multiset(s) - multiset(s[n..]);
    assert multiset(t[..n]) == multiset(t) - multiset(t[n..]);
  }

  method OneExchange<T>(a: array<T>, n: nat, key: T -> Cost, j: nat, k: nat)
    requires j < k < n <= a.Length && SortedTo(a[..], key, j, n)
    requires forall l :: j < l < k ==> Le(key(a[j]), key(a[l]))
    modifies a
    ensures SortedTo(a[..], key, j, n) && multiset(a[..]) == multiset(old(a[..])) && a[n..] == old(a[n..])
    ensures forall l :: j < l < k + 1 ==> Le(key(a[j]), key(a[l]))
  {
    if Lt(key(a[k]), key(a[j])) {
      ghost var s := a[..];
      SwapSorted(s, key, j, n, k);
      SwapBag(s, j, k);
      a[j], a[k] := a[k], a[j];
      assert a[..] == s[j := s[k]][k := s[j]];
      assert a[n..] == a[..][n..] && s[n..] == s[j := s[k]][k := s[j]][n..];
    }
  }

  // ---------- what is left ----------

  /** The edges of a variable to models that are left. */
  method LeftEdges(es: seq<Edge>, f': Flags) returns (r: seq<Edge>)
    ensures |r| <= |es| && forall e :: e in r <==> e in es && KeptModel(f', e.idx)
  {
    r := [];
    for i := 0 to |es|
      invariant |r| <= i
      invariant forall e :: e in r <==> e in es[..i] && KeptModel(f', e.idx)
    {
      assert es[..i + 1] == es[..i] + [es[i]];
      if es[i].idx < |f'.m| && f'.m[es[i].idx].selected {
        r := r + [es[i]];
      }
    }
    assert es[..|es|] == es;
  }

  /** The edges of one variable that are left. */
  ghost predicate EdgesLeft(v: Var, v': Var, f': Flags, x: nat) {
    v'.group == v.group && |v'.models| <= |v.models| && forall e :: e in v'.models <==>
        KeptVar(f', x) && e in v.models && KeptModel(f', e.idx)
  }

  method LeftVars(g: Graph, f': Flags) returns (vs: seq<Var>)
    ensures |vs| == |g.vars| && forall x: nat :: x < |vs| ==> EdgesLeft(g.vars[x], vs[x], f', x)
  {
    vs := [];
    for x := 0 to |g.vars|
      invariant |vs| == x && forall y: nat :: y < x ==> EdgesLeft(g.vars[y], vs[y], f', y)
    {
      var es := [];
      if x < |f'.v| && f'.v[x].select {
        es := LeftEdges(g.vars[x].models, f');
      }
      vs := vs + [g.vars[x].(models := es)];
    }
  }

  lemma AllEdgesLeft(g: Graph, h: Graph, f': Flags)
    requires |h.vars| == |g.vars| && forall x: nat :: x < |h.vars| ==> EdgesLeft(g.vars[x], h.vars[x], f', x)
    ensures RebuiltVars(g, f', h)
  {
    forall x: nat, e | x < |g.vars|
      ensures e in h.vars[x].models <==> KeptVar(f', x) && e in g.vars[x].models && KeptModel(f', e.idx)
    {
      assert EdgesLeft(g.vars[x], h.vars[x], f', x);
    }
    forall x | 0 <= x < |g.vars|
      ensures h.vars[x].group == g.vars[x].group && |h.vars[x].models| <= |g.vars[x].models|
    {
      assert EdgesLeft(g.vars[x], h.vars[x], f', x);
    }
  }

  /** `params` split as in `g_build_edges`: computed parameters first. */
  method SplitParams(ps: seq<Edge>, vs: seq<Var>) returns (r: array<Edge>, cparam: nat)
    requires forall i :: 0 <= i < |ps| ==> ps[i].idx < |vs|
    ensures fresh(r) && cparam <= r.Length && multiset(r[..]) == multiset(ps)
    ensures forall i :: 0 <= i < r.Length ==> r[i].idx < |vs| && (i < cparam <==> |vs[r[i].idx].models| != 0)
  {
    var computed, given := [], [];
    for i := 0 to |ps|
      invariant multiset(computed + given) == multiset(ps[..i])
      invariant forall e :: e in computed ==> e.idx < |vs| && |vs[e.idx].models| != 0
      invariant forall e :: e in given ==> e.idx < |vs| && |vs[e.idx].models| == 0
    {
      assert ps[..i + 1] == ps[..i] + [ps[i]];
      if |vs[ps[i].idx].models| != 0 {
        computed := computed + [ps[i]];
      } else {
        given := given + [ps[i]];
      }
    }
    assert ps[..|ps|] == ps;
    var all := computed + given;
    cparam := |computed|;
    r := new Edge[|all|](i requires 0 <= i < |all| => all[i]);
    assert r[..] == all;
    forall i | 0 <= i < r.Length
      ensures r[i].idx < |vs| && (i < cparam <==> |vs[r[i].idx].models| != 0)
    {
      assert r[i] == if i < cparam then computed[i] else given[i - cparam];
    }
  }

  /** Spread between the bounds of a variable, by which the builder orders parameters. */
  function Spread(k: Bounded): Edge -> Cost {
    (e: Edge) =>
      if e.idx < |k.black.v| && e.idx < |k.gray.v| && k.black.v[e.idx].Fin? && k.gray.v[e.idx].Fin?
      then Fin(k.black.v[e.idx].r - k.gray.v[e.idx].r)
      else Inf
  }

  /** Larger penalties come first. */
  function PenaltyKey(c: Check): Cost {
    Fin(-c.penalty)
  }

  /** The bounds of `y` are at least as far apart as those of `x`; without a black bound they are infinitely so. */
  predicate NoWider(k: Bounded, x: nat, y: nat) {
    x < |k.black.v| && x < |k.gray.v| && y < |k.black.v| && y < |k.gray.v| && k.gray.v[x].Fin? && k.gray.v[y].Fin? ==>
      k.black.v[y].Inf?
      || (k.black.v[x].Fin? && k.black.v[x].r - k.gray.v[x].r <= k.black.v[y].r - k.gray.v[y].r)
  }

  /** Computed parameters with close bounds first, and large penalties first. */
  predicate LeftSorted(k: Bounded, m: Model) {
    && m.cparam <= |m.params|
    && (forall i, l :: 0 <= i < l < m.cparam ==> NoWider(k, m.params[i].idx, m.params[l].idx))
    && (forall i, l :: 0 <= i < l < |m.checks| ==> m.checks[i].penalty >= m.checks[l].penalty)
  }

  lemma SortedLeft(k: Bounded, m: Model)
    requires m.cparam <= |m.params| && SortedTo(m.params, Spread(k), m.cparam, m.cparam)
    requires SortedTo(m.checks, PenaltyKey, |m.checks|, |m.checks|)
    ensures LeftSorted(k, m)
  {
    forall i, l | 0 <= i < l < m.cparam
      ensures NoWider(k, m.params[i].idx, m.params[l].idx)
    {
      assert Le(Spread(k)(m.params[i]), Spread(k)(m.params[l]));
    }
    forall i, l | 0 <= i < l < |m.checks|
      ensures m.checks[i].penalty >= m.checks[l].penalty
    {
      assert Le(PenaltyKey(m.checks[i]), PenaltyKey(m.checks[l]));
    }
  }

  method LeftModel(m: Model, cmin: real, vs: seq<Var>, k: Bounded) returns (m': Model)
    requires forall i :: 0 <= i < |m.params| ==> m.params[i].idx < |vs|
    ensures m' == m.(cmin := cmin, cparam := m'.cparam, params := m'.params, checks := m'.checks)
    ensures m'.cparam <= |m'.params|
    ensures multiset(m'.params) == multiset(m.params) && multiset(m'.checks) == multiset(m.checks)
    ensures forall i :: 0 <= i < |m'.params| ==>
        m'.params[i].idx < |vs| && (i < m'.cparam <==> |vs[m'.params[i].idx].models| != 0)
    ensures SortedTo(m'.params, Spread(k), m'.cparam, m'.cparam)
    ensures SortedTo(m'.checks, PenaltyKey, |m'.checks|, |m'.checks|)
  {
    var ps, cparam := SplitParams(m.params, vs);
    ghost var split := ps[..];
    Reorder(ps, cparam, Spread(k));
    SplitStays(split, ps[..], cparam, vs);
    var cs := new Check[|m.checks|](i requires 0 <= i < |m.checks| => m.checks[i]);
    assert cs[..] == m.checks;
    Reorder(cs, cs.Length, PenaltyKey);
    m' := m.(cmin := cmin, cparam := cparam, params := ps[..], checks := cs[..]);
  }

  lemma SplitStays(s: seq<Edge>, t: seq<Edge>, n: nat, vs: seq<Var>)
    requires n <= |s| == |t| && multiset(s[..n]) == multiset(t[..n]) && s[n..] == t[n..]
    requires forall i :: 0 <= i < |s| ==> s[i].idx < |vs| && (i < n <==> |vs[s[i].idx].models| != 0)
    ensures forall i :: 0 <= i < |t| ==> t[i].idx < |vs| && (i < n <==> |vs[t[i].idx].models| != 0)
  {
    forall i | 0 <= i < |t|
      ensures t[i].idx < |vs| && (i < n <==> |vs[t[i].idx].models| != 0)
    {
      if i < n {
        assert t[i] == t[..n][i] && t[i] in multiset(t[..n]);
        assert t[i] in s[..n];
        var j :| 0 <= j < n && s[..n][j] == t[i];
        assert s[j] == t[i];
      } else {
        assert t[i] == t[n..][i - n] == s[n..][i - n] == s[i];
      }
    }
  }

  /** A model that is not left has no edges. */
  function Blank(m: Model): Model {
    m.(cmin := m.k, cparam := 0, params := [], checks := [])
  }

  /** All checks look at variables that are left; otherwise building fails. */
  method ChecksFound(g: Graph, f': Flags) returns (ok: bool)
    requires GraphOk(g)
    ensures ok <==> forall m: nat, e: nat :: KeptModel(f', m) && m < |g.models| && e < |g.models[m].checks| ==>
        KeptVar(f', Checked(g, m, e))
  {
    for m := 0 to |g.models|
      invariant forall l: nat, e: nat :: KeptModel(f', l) && l < m && e < |g.models[l].checks| ==>
          KeptVar(f', Checked(g, l, e))
    {
      if m < |f'.m| && f'.m[m].selected {
        for e := 0 to |g.models[m].checks|
          invariant forall d: nat :: d < e ==> KeptVar(f', Checked(g, m, d))
        {
          assert ModelOk(g, g.models[m]);
          var x := g.shadows[g.models[m].checks[e].idx];
          if !(x < |f'.v| && f'.v[x].select) {
            assert !KeptVar(f', Checked(g, m, e));
            return false;
          }
        }
      }
    }
    ok := true;
  }

  /** The model with all its edges in some order, starting from its gray bound. */
  predicate LeftFrom(m: Model, gray: Cost, m': Model) {
    && m'.group == m.group && m'.k == m.k && m'.c == m.c && gray == Fin(m'.cmin) && m'.rets == m.rets
    && multiset(m'.params) == multiset(m.params) && multiset(m'.checks) == multiset(m.checks)
  }

  /** Selected models are left, and between them and the retained variables all edges. */
  ghost predicate ModelsByFlags(g: Graph, k: Bounded, f': Flags, h: Graph)
    requires |k.gray.m| == |g.models|
  {
    && |h.models| == |g.models|
    && forall m: nat :: m < |g.models| && m < |f'.m| && f'.m[m].selected ==>
           LeftFrom(g.models[m], k.gray.m[m], h.models[m])
  }

  ghost predicate EdgesByFlags(g: Graph, f': Flags, h: Graph) {
    && |h.vars| == |g.vars|
    && forall x: nat, e :: x < |g.vars| ==>
           (e in h.vars[x].models <==>
             && e in g.vars[x].models && x < |f'.v| && f'.v[x].select && e.idx < |f'.m| && f'.m[e.idx].selected)
  }

  lemma LeftByFlags(g: Graph, f': Flags, h: Graph)
    requires |h.vars| == |g.vars| && forall x: nat :: x < |h.vars| ==> EdgesLeft(g.vars[x], h.vars[x], f', x)
    ensures EdgesByFlags(g, f', h)
  {
    forall x: nat, e | x < |g.vars|
      ensures e in h.vars[x].models <==>
          && e in g.vars[x].models && x < |f'.v| && f'.v[x].select && e.idx < |f'.m| && f'.m[e.idx].selected
    {
      assert EdgesLeft(g.vars[x], h.vars[x], f', x);
    }
  }

  /** `_prune` followed by `build`. */
  method LeftProblem(p: Problem, k: Bounded, f': Flags) returns (p': Problem, ok: bool)
    requires GraphOk(p.g) && |k.gray.m| == |p.g.models|
    requires forall m :: 0 <= m < |p.g.models| && KeptModel(f', m) ==> k.gray.m[m].Fin?
    ensures ok ==> Rebuilt(p, k, f', p')
    ensures ok ==> forall m :: 0 <= m < |p'.g.models| ==> LeftSorted(k, p'.g.models[m])
    ensures ok ==> EdgesByFlags(p.g, f', p'.g) && ModelsByFlags(p.g, k, f', p'.g)
    ensures !ok <==> exists m: nat, e: nat ::
        KeptModel(f', m) && m < |p.g.models| && e < |p.g.models[m].checks| && !KeptVar(f', Checked(p.g, m, e))
  {
    ok := ChecksFound(p.g, f');
    p' := p;
    if ok {
      var vs := LeftVars(p.g, f');
      var ms := LeftModels(p.g, k, f', vs);
      p' := p.(g := Graph(vs, ms, p.g.shadows));
      SplitGiven(p.g, vs, ms);
      AllEdgesLeft(p.g, p'.g, f');
      LeftByFlags(p.g, f', p'.g);
    }
  }

  lemma SplitGiven(g: Graph, vs: seq<Var>, ms: seq<Model>)
    requires forall m, i :: 0 <= m < |ms| && 0 <= i < |ms[m].params| ==>
      ms[m].params[i].idx < |vs| && (i < ms[m].cparam <==> |vs[ms[m].params[i].idx].models| != 0)
    ensures forall m: nat, e: nat :: m < |ms| && e < |ms[m].params| ==>
      (e < ms[m].cparam <==> !Given(Graph(vs, ms, g.shadows), ms[m].params[e].idx))
  {
  }

  method LeftModels(g: Graph, k: Bounded, f': Flags, vs: seq<Var>) returns (ms: seq<Model>)
    requires GraphOk(g) && |k.gray.m| == |g.models| && |vs| == |g.vars|
    requires forall m :: 0 <= m < |g.models| && KeptModel(f', m) ==> k.gray.m[m].Fin?
    ensures |ms| == |g.models| && forall m :: 0 <= m < |ms| ==> RebuiltModel(g, k, f', g.models[m], ms[m], m)
    ensures forall m, i :: 0 <= m < |ms| && 0 <= i < |ms[m].params| ==>
      ms[m].params[i].idx < |vs| && (i < ms[m].cparam <==> |vs[ms[m].params[i].idx].models| != 0)
    ensures forall m :: 0 <= m < |ms| ==> LeftSorted(k, ms[m])
    ensures forall m: nat :: m < |ms| && KeptModel(f', m) ==> LeftFrom(g.models[m], k.gray.m[m], ms[m])
  {
    hide LeftSorted, Spread;
    ms := [];
    for m := 0 to |g.models|
      invariant |ms| == m && forall l :: 0 <= l < m ==> RebuiltModel(g, k, f', g.models[l], ms[l], l)
      invariant forall l, i :: 0 <= l < m && 0 <= i < |ms[l].params| ==>
        ms[l].params[i].idx < |vs| && (i < ms[l].cparam <==> |vs[ms[l].params[i].idx].models| != 0)
      invariant forall l :: 0 <= l < m ==> LeftSorted(k, ms[l])
      invariant forall l: nat :: l < m && KeptModel(f', l) ==> LeftFrom(g.models[l], k.gray.m[l], ms[l])
    {
      assert ModelOk(g, g.models[m]);
      var q := Blank(g.models[m]);
      SortedLeft(k, q);
      if m < |f'.m| && f'.m[m].selected {
        assert KeptModel(f', m);
        q := LeftModel(g.models[m], k.gray.m[m].r, vs, k);
        SortedLeft(k, q);
      }
      ms := ms + [q];
    }
  }
}
