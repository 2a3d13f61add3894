/** The graph builder: edges of both directions from the definitions of the models. */
module Build {
  import opened Costs
  import opened Graphs
  import opened Heaps
  import opened Bounds
  import Rebuild
  import Sums

  /** `fhk_extmap`: a map with its inverse. */
  datatype ExtMap = XIdent | XSpace | XUser(map_: nat, inverse: nat)

  datatype DefEdge = DefEdge(idx: nat, via: ExtMap)

  datatype DefCheck = DefCheck(idx: nat, via: ExtMap, penalty: real)

  datatype DefModel = DefModel(group: nat, k: real, c: real, cmin: real, params: seq<DefEdge>, rets: seq<DefEdge>,
      checks: seq<DefCheck>)

  /** What has been defined: the groups of the variables, the models, and the variables of the shadows. */
  datatype Def = Def(groups: seq<nat>, models: seq<DefModel>, shadows: seq<nat>)

  /** What the `fhk_def_add` functions let through. */
  predicate DefOk(d: Def) {
    && (forall m :: 0 <= m < |d.models| ==> d.models[m].k >= 0.0 && d.models[m].c >= 1.0)
    && (forall m, j :: 0 <= m < |d.models| && 0 <= j < |d.models[m].params| ==> d.models[m].params[j].idx < |d.groups|)
    && (forall m, j :: 0 <= m < |d.models| && 0 <= j < |d.models[m].rets| ==> d.models[m].rets[j].idx < |d.groups|)
    && (forall m, j :: 0 <= m < |d.models| && 0 <= j < |d.models[m].checks| ==>
          d.models[m].checks[j].idx < |d.shadows| && d.models[m].checks[j].penalty >= 0.0)
    && (forall w :: 0 <= w < |d.shadows| ==> d.shadows[w] < |d.groups|)
  }

  /** `g_extmap`: the map of an edge to something in group `to`; `g_extmapi`: the way back into group `from`. */
  function Forth(via: ExtMap, to: nat): Map {
    match via
    case XIdent => Ident
    case XSpace => Space(to)
    case XUser(u, i) => User(u)
  }

  function Back(via: ExtMap, from: nat): Map {
    match via
    case XIdent => Ident
    case XSpace => Space(from)
    case XUser(u, i) => User(i)
  }

  /** The first `j` parameters of model `i`, as edges that record their position. */
  function ParamEdges(d: Def, i: nat, j: nat): (es: seq<Edge>)
    requires DefOk(d) && i < |d.models| && j <= |d.models[i].params|
    ensures |es| == j && forall l :: 0 <= l < j ==>
      es[l] == Edge(d.models[i].params[l].idx, Forth(d.models[i].params[l].via, d.groups[d.models[i].params[l].idx]), l)
  {
    if j == 0 then []
    else
      var e := d.models[i].params[j - 1];
      ParamEdges(d, i, j - 1) + [Edge(e.idx, Forth(e.via, d.groups[e.idx]), j - 1)]
  }

  /** Forward edges of `x` that the first `j` parameters of model `i` give rise to. */
  function ForwardsIn(d: Def, x: nat, i: nat, j: nat): seq<Edge>
    requires i < |d.models| && j <= |d.models[i].params|
  {
    if j == 0 then []
    else ForwardsIn(d, x, i, j - 1) + ForwardOf(d, x, i, j - 1)
  }

  function ForwardOf(d: Def, x: nat, i: nat, j: nat): seq<Edge>
    requires i < |d.models| && j < |d.models[i].params|
  {
    if d.models[i].params[j].idx == x then [Edge(i, Back(d.models[i].params[j].via, d.models[i].group), 0)] else []
  }

  /** Forward edges of `x` from the first `i` models. */
  function Forwards(d: Def, x: nat, i: nat): seq<Edge>
    requires i <= |d.models|
  {
    if i == 0 then [] else Forwards(d, x, i - 1) + ForwardsIn(d, x, i - 1, |d.models[i - 1].params|)
  }

  function BackwardsIn(d: Def, x: nat, i: nat, j: nat): seq<Edge>
    requires i < |d.models| && j <= |d.models[i].rets|
  {
    if j == 0 then []
    else BackwardsIn(d, x, i, j - 1) + BackwardOf(d, x, i, j - 1)
  }

  function BackwardOf(d: Def, x: nat, i: nat, j: nat): seq<Edge>
    requires i < |d.models| && j < |d.models[i].rets|
  {
    if d.models[i].rets[j].idx == x then [Edge(i, Back(d.models[i].rets[j].via, d.models[i].group), j)] else []
  }

  /** Model edges of `x` from the first `i` models. */
  function Backwards(d: Def, x: nat, i: nat): seq<Edge>
    requires i <= |d.models|
  {
    if i == 0 then [] else Backwards(d, x, i - 1) + BackwardsIn(d, x, i - 1, |d.models[i - 1].rets|)
  }

  function RetEdges(d: Def, i: nat): (es: seq<Edge>)
    requires DefOk(d) && i < |d.models|
    ensures |es| == |d.models[i].rets|
  {
    seq(|d.models[i].rets|, j requires 0 <= j < |d.models[i].rets| =>
      Edge(d.models[i].rets[j].idx, Forth(d.models[i].rets[j].via, d.groups[d.models[i].rets[j].idx]), j))
  }

  function CheckEdges(d: Def, i: nat): (cs: seq<Check>)
    requires DefOk(d) && i < |d.models|
    ensures |cs| == |d.models[i].checks|
  {
    seq(|d.models[i].checks|, j requires 0 <= j < |d.models[i].checks| =>
      Check(d.models[i].checks[j].idx,
          Forth(d.models[i].checks[j].via, d.groups[d.shadows[d.models[i].checks[j].idx]]),
          d.models[i].checks[j].penalty))
  }

  // ---------- counting edges ----------

  lemma {:induction false} CountAppend(a: seq<Edge>, b: seq<Edge>, j: nat, i: nat, c: Color)
    requires j <= |a|
    ensures CountTo(a + b, j, i, c) == CountTo(a, j, i, c) + CountTo(b, 0, i, c)
    decreases |a| - j
  {
    if j == |a| {
      CountShift(a, b, 0, i, c);
    } else {
      CountAppend(a, b, j + 1, i, c);
    }
  }

  lemma {:induction false} CountShift(a: seq<Edge>, b: seq<Edge>, j: nat, i: nat, c: Color)
    requires j <= |b|
    ensures CountTo(a + b, |a| + j, i, c) == CountTo(b, j, i, c)
    decreases |b| - j
  {
    if j < |b| {
      CountShift(a, b, j + 1, i, c);
    }
  }

  lemma {:induction false} CountRemove(es: seq<Edge>, l: nat, i: nat, c: Color)
    requires l < |es|
    ensures CountTo(es, 0, i, c) == CountTo(es[..l] + es[l + 1..], 0, i, c) + CountTo([es[l]], 0, i, c)
  {
    assert es == es[..l] + ([es[l]] + es[l + 1..]);
    CountAppend(es[..l], [es[l]] + es[l + 1..], 0, i, c);
    CountAppend([es[l]], es[l + 1..], 0, i, c);
    CountAppend(es[..l], es[l + 1..], 0, i, c);
  }

  /** Counting does not depend on the order. */
  lemma {:induction false} CountPermuted(a: seq<Edge>, b: seq<Edge>, i: nat, c: Color)
    requires multiset(a) == multiset(b)
    ensures CountTo(a, 0, i, c) == CountTo(b, 0, i, c)
    decreases |a|
  {
    if a == [] {
      assert |b| == |multiset(b)|;
    } else {
      assert a[0] in multiset(b);
      var l :| 0 <= l < |b| && b[l] == a[0];
      var r := b[..l] + b[l + 1..];
      Sums.SameRest(a, b, l);
      CountPermuted(a[1..], r, i, c);
      CountRemove(b, l, i, c);
      CountRemove(a, 0, i, c);
      assert a[..0] + a[1..] == a[1..];
    }
  }

  /** Forward edges of `x` into model `i` are as many as parameters of `i` that are `x`. */
  lemma {:induction false} CountIn(d: Def, x: nat, i: nat, j: nat, c: Color)
    requires DefOk(d) && i < |d.models| && j <= |d.models[i].params|
    ensures CountTo(ForwardsIn(d, x, i, j), 0, i, c) == CountTo(ParamEdges(d, i, j), 0, x, c)
    decreases j
  {
    if j > 0 {
      CountIn(d, x, i, j - 1, c);
      var e := Edge(d.models[i].params[j - 1].idx,
          Forth(d.models[i].params[j - 1].via, d.groups[d.models[i].params[j - 1].idx]), j - 1);
      CountAppend(ForwardsIn(d, x, i, j - 1), ForwardOf(d, x, i, j - 1), 0, i, c);
      CountAppend(ParamEdges(d, i, j - 1), [e], 0, x, c);
    }
  }

  lemma {:induction false} CountOthers(d: Def, x: nat, i: nat, j: nat, m: nat, c: Color)
    requires i < |d.models| && j <= |d.models[i].params| && m != i
    ensures CountTo(ForwardsIn(d, x, i, j), 0, m, c) == 0
  {
    if j > 0 {
      CountOthers(d, x, i, j - 1, m, c);
      CountAppend(ForwardsIn(d, x, i, j - 1), ForwardOf(d, x, i, j - 1), 0, m, c);
    }
  }

  lemma NoForwards(d: Def, x: nat, m: nat, c: Color)
    ensures Forwards(d, x, 0) == [] && CountTo([], 0, m, c) == 0
  {
  }

  lemma {:induction false} CountForwards(d: Def, x: nat, i: nat, m: nat, c: Color)
    requires DefOk(d) && i <= |d.models| && m < |d.models|
    ensures CountTo(Forwards(d, x, i), 0, m, c) == if m < i then
        CountTo(ParamEdges(d, m, |d.models[m].params|), 0, x, c) else 0
  {
    hide DefOk, ForwardsIn, ParamEdges, CountTo;
    NoForwards(d, x, m, c);
    if i > 0 {
      CountForwards(d, x, i - 1, m, c);
      CountAppend(Forwards(d, x, i - 1), ForwardsIn(d, x, i - 1, |d.models[i - 1].params|), 0, m, c);
      if m == i - 1 {
        CountIn(d, x, m, |d.models[m].params|, c);
      } else {
        CountOthers(d, x, i - 1, |d.models[i - 1].params|, m, c);
      }
    }
  }

  lemma {:induction false} ForwardsInRange(d: Def, x: nat, i: nat)
    requires i <= |d.models|
    ensures forall l :: 0 <= l < |Forwards(d, x, i)| ==> Forwards(d, x, i)[l].idx < i
  {
    if i > 0 {
      ForwardsInRange(d, x, i - 1);
      ForwardsInOne(d, x, i - 1, |d.models[i - 1].params|);
    }
  }

  lemma {:induction false} ForwardsInOne(d: Def, x: nat, i: nat, j: nat)
    requires i < |d.models| && j <= |d.models[i].params|
    ensures forall l :: 0 <= l < |ForwardsIn(d, x, i, j)| ==> ForwardsIn(d, x, i, j)[l].idx == i
  {
    if j > 0 {
      ForwardsInOne(d, x, i, j - 1);
    }
  }

  /** The model edges of `x` are exactly the return edges that lead to it, seen from the other side. */
  predicate IsBackward(d: Def, x: nat, e: Edge) {
    && e.idx < |d.models| && e.ex < |d.models[e.idx].rets| && d.models[e.idx].rets[e.ex].idx == x
    && e.via == Back(d.models[e.idx].rets[e.ex].via, d.models[e.idx].group)
  }

  lemma {:induction false} BackwardsInAre(d: Def, x: nat, i: nat, j: nat, e: Edge)
    requires i < |d.models| && j <= |d.models[i].rets|
    ensures e in BackwardsIn(d, x, i, j) <==> e.idx == i && e.ex < j && IsBackward(d, x, e)
  {
    if j > 0 {
      BackwardsInAre(d, x, i, j - 1, e);
    }
  }

  lemma {:induction false} BackwardsAre(d: Def, x: nat, i: nat, e: Edge)
    requires i <= |d.models|
    ensures e in Backwards(d, x, i) <==> e.idx < i && IsBackward(d, x, e)
  {
    if i > 0 {
      BackwardsAre(d, x, i - 1, e);
      BackwardsInAre(d, x, i - 1, |d.models[i - 1].rets|, e);
    }
  }

  // ---------- what the builder delivers ----------

  /** All of the graph, with edges made as above. */
  ghost predicate Built(d: Def, g: Graph)
    requires DefOk(d)
  {
    && |g.vars| == |d.groups| && |g.models| == |d.models| && g.shadows == d.shadows
    && (forall x :: 0 <= x < |g.vars| ==>
          g.vars[x] == Var(d.groups[x], Backwards(d, x, |d.models|), Forwards(d, x, |d.models|)))
    && (forall m :: 0 <= m < |g.models| ==> BuiltModel(d, g, m))
  }

  /** A model gets its parameters in another order, computed ones first; `ex` tells where they came from. */
  ghost predicate BuiltModel(d: Def, g: Graph, m: nat)
    requires DefOk(d) && m < |d.models| == |g.models|
  {
    var a, b := d.models[m], g.models[m];
    && b.group == a.group && b.k == a.k && b.c == a.c && b.cmin == a.cmin && b.rets == RetEdges(d, m)
    && multiset(b.params) == multiset(ParamEdges(d, m, |a.params|)) && multiset(b.checks) == multiset(CheckEdges(d, m))
    && b.cparam <= |b.params|
    && (forall i :: 0 <= i < |b.params| ==>
        b.params[i].idx < |g.vars| && (i < b.cparam <==> |g.vars[b.params[i].idx].models| != 0))
  }

  // ---------- the built graph, edge by edge ----------

  /** The map that `via` becomes on an edge to something in `group`, and on the way back into `group`. */
  predicate LeadsTo(via: ExtMap, q: Map, group: nat) {
    match via
    case XIdent => q == Ident
    case XSpace => q == Space(group)
    case XUser(u, i) => q == User(u)
  }

  predicate LeadsBack(via: ExtMap, q: Map, group: nat) {
    match via
    case XIdent => q == Ident
    case XSpace => q == Space(group)
    case XUser(u, i) => q == User(i)
  }

  /** Every element of `at` is below `n`, none occurs twice, and there are `n`: a permutation. */
  predicate Permutes(at: seq<nat>, n: nat) {
    |at| == n && (forall i :: 0 <= i < n ==> at[i] < n) && forall i, j :: 0 <= i < j < n ==> at[i] != at[j]
  }

  predicate SameEdge(d: Def, a: DefEdge, e: Edge) {
    e.idx == a.idx && a.idx < |d.groups| && LeadsTo(a.via, e.via, d.groups[a.idx])
  }

  predicate SameCheck(d: Def, a: DefCheck, c: Check) {
    && c.idx == a.idx && c.penalty == a.penalty && a.idx < |d.shadows| && d.shadows[a.idx] < |d.groups|
    && LeadsTo(a.via, c.via, d.groups[d.shadows[a.idx]])
  }

  /** Parameter edge `e` is parameter `params[e].ex` of the definition, check `e` is check `at[e]`, and return edges
      keep their places; nothing is lost and nothing is there twice. */
  ghost predicate ModelExactly(d: Def, b: Model, m: nat, at: seq<nat>)
    requires m < |d.models|
  {
    var a := d.models[m];
    && |b.params| == |a.params| && |b.rets| == |a.rets| && |b.checks| == |a.checks|
    && Permutes(seq(|b.params|, e requires 0 <= e < |b.params| => b.params[e].ex), |a.params|)
    && (forall e :: 0 <= e < |b.params| ==>
          b.params[e].ex < |a.params| && SameEdge(d, a.params[b.params[e].ex], b.params[e]))
    && (forall l :: 0 <= l < |b.rets| ==> b.rets[l].ex == l && SameEdge(d, a.rets[l], b.rets[l]))
    && Permutes(at, |a.checks|)
    && (forall e :: 0 <= e < |b.checks| ==> SameCheck(d, a.checks[at[e]], b.checks[e]))
  }

  /** Computed parameters and checks in the order that the builder sorts them into. */
  predicate ModelSorted(b: Model, spread: Edge -> Cost) {
    && b.cparam <= |b.params|
    && (forall i, l :: 0 <= i < l < b.cparam ==> Le(spread(b.params[i]), spread(b.params[l])))
    && (forall i, l :: 0 <= i < l < |b.checks| ==> b.checks[i].penalty >= b.checks[l].penalty)
  }

  /** Model edges of a variable are the returns that lead to it, each once, the other way around; forward edges come
      from the parameters that it is. */
  ghost predicate VarExactly(d: Def, v: Var, x: nat) {
    && (forall i :: 0 <= i < |v.models| ==> EdgeBack(d, x, v.models[i]))
    && (forall i, j :: 0 <= i < j < |v.models| ==> v.models[i] != v.models[j])
    && (forall m, l :: 0 <= m < |d.models| && 0 <= l < |d.models[m].rets| && d.models[m].rets[l].idx == x ==>
          exists i :: 0 <= i < |v.models| && v.models[i].idx == m && v.models[i].ex == l)
    && (forall i :: 0 <= i < |v.fwds| ==> IsForward(d, x, v.fwds[i]))
  }

  predicate EdgeBack(d: Def, x: nat, e: Edge) {
    && e.idx < |d.models| && e.ex < |d.models[e.idx].rets| && d.models[e.idx].rets[e.ex].idx == x
    && LeadsBack(d.models[e.idx].rets[e.ex].via, e.via, d.models[e.idx].group)
  }

  predicate ForwardBack(d: Def, x: nat, e: Edge, l: int) {
    && e.idx < |d.models| && 0 <= l < |d.models[e.idx].params| && d.models[e.idx].params[l].idx == x
    && LeadsBack(d.models[e.idx].params[l].via, e.via, d.models[e.idx].group)
  }

  ghost predicate IsForward(d: Def, x: nat, e: Edge) {
    exists l :: ForwardBack(d, x, e, l)
  }

  /** All of the graph, from the definitions' fields alone. */
  ghost predicate BuiltExactly(d: Def, g: Graph) {
    && |g.vars| == |d.groups| && |g.models| == |d.models| && g.shadows == d.shadows
    && (forall x :: 0 <= x < |g.vars| ==> g.vars[x].group == d.groups[x] && VarExactly(d, g.vars[x], x))
    && (forall m :: 0 <= m < |g.models| ==> ModelKept(d, g.models[m], m))
  }

  ghost predicate ModelKept(d: Def, b: Model, m: nat)
    requires m < |d.models|
  {
    var a := d.models[m];
    && b.group == a.group && b.k == a.k && b.c == a.c && b.cmin == a.cmin
    && exists at :: ModelExactly(d, b, m, at)
  }

  /** Two lists with the same elements: where each element of `b` is in `a`. */
  lemma {:induction false} Rearranged<T>(a: seq<T>, b: seq<T>) returns (at: seq<nat>)
    requires multiset(a) == multiset(b)
    ensures |a| == |b| && Permutes(at, |b|) && forall i :: 0 <= i < |b| ==> b[i] == a[at[i]]
    decreases |b|
  {
    hide Permutes;
    assert |multiset(a)| == |a| && |multiset(b)| == |b|;
    if b == [] {
      at := [];
      NoneMoved();
    } else {
      assert b[0] in multiset(a);
      var i :| 0 <= i < |a| && a[i] == b[0];
      Sums.SameRest(b, a, i);
      var r := a[..i] + a[i + 1..];
      var rest := Rearranged(r, b[1..]);
      PermutesIn(rest, |r|);
      at := OneMore(rest, i);
      PermutesIn(at, |b|);
      forall k | 0 <= k < |b|
        ensures b[k] == a[at[k]]
      {
        if k > 0 {
          assert b[k] == b[1..][k - 1] == r[rest[k - 1]];
        }
      }
    }
  }

  lemma NoneMoved()
    ensures Permutes([], 0)
  {
  }

  function OneMore(at: seq<nat>, i: nat): (more: seq<nat>)
    requires Permutes(at, |at|) && i <= |at|
    ensures Permutes(more, |at| + 1) && more[0] == i
    ensures forall k :: 0 <= k < |at| ==> more[k + 1] == Skipping(at[k], i)
  {
    [i] + seq(|at|, k requires 0 <= k < |at| => Skipping(at[k], i))
  }

  function Skipping(k: nat, i: nat): nat {
    if k < i then k else k + 1
  }

  lemma ModelIsExact(d: Def, g: Graph, m: nat) returns (at: seq<nat>)
    requires DefOk(d) && m < |d.models| == |g.models| && BuiltModel(d, g, m)
    ensures ModelExactly(d, g.models[m], m, at)
  {
    hide Permutes;
    var a, b := d.models[m], g.models[m];
    var es, cs := ParamEdges(d, m, |a.params|), CheckEdges(d, m);
    at := Rearranged(cs, b.checks);
    var ex := Rearranged(es, b.params);
    PermutesIn(at, |cs|);
    PermutesIn(ex, |es|);
    assert ex == seq(|b.params|, e requires 0 <= e < |b.params| => b.params[e].ex);
  }

  lemma PermutesIn(at: seq<nat>, n: nat)
    requires Permutes(at, n)
    ensures |at| == n && forall i :: 0 <= i < n ==> at[i] < n
  {
  }

  lemma {:induction false} OnceIn(d: Def, x: nat, i: nat, j: nat)
    requires i < |d.models| && j <= |d.models[i].rets|
    ensures forall k, l :: 0 <= k < l < |BackwardsIn(d, x, i, j)| ==>
        BackwardsIn(d, x, i, j)[k] != BackwardsIn(d, x, i, j)[l]
  {
    if j > 0 {
      OnceIn(d, x, i, j - 1);
      forall e | e in BackwardsIn(d, x, i, j - 1)
        ensures e.ex < j - 1
      {
        BackwardsInAre(d, x, i, j - 1, e);
      }
    }
  }

  lemma {:induction false} OnceEach(d: Def, x: nat, i: nat)
    requires i <= |d.models|
    ensures forall k, l :: 0 <= k < l < |Backwards(d, x, i)| ==> Backwards(d, x, i)[k] != Backwards(d, x, i)[l]
  {
    hide BackwardsIn;
    if i > 0 {
      OnceEach(d, x, i - 1);
      OnceIn(d, x, i - 1, |d.models[i - 1].rets|);
      forall e | e in Backwards(d, x, i - 1)
        ensures e.idx < i - 1
      {
        BackwardsAre(d, x, i - 1, e);
      }
      forall e | e in BackwardsIn(d, x, i - 1, |d.models[i - 1].rets|)
        ensures e.idx == i - 1
      {
        BackwardsInAre(d, x, i - 1, |d.models[i - 1].rets|, e);
      }
    }
  }

  lemma {:induction false} ForwardsInBack(d: Def, x: nat, i: nat, j: nat, e: Edge)
    requires i < |d.models| && j <= |d.models[i].params| && e in ForwardsIn(d, x, i, j)
    ensures IsForward(d, x, e)
  {
    if j > 0 {
      if e in ForwardOf(d, x, i, j - 1) {
        assert ForwardBack(d, x, e, j - 1);
      } else {
        ForwardsInBack(d, x, i, j - 1, e);
      }
    }
  }

  lemma {:induction false} ForwardsBack(d: Def, x: nat, i: nat, e: Edge)
    requires i <= |d.models| && e in Forwards(d, x, i)
    ensures IsForward(d, x, e)
  {
    hide ForwardsIn, IsForward;
    if i > 0 {
      if e in ForwardsIn(d, x, i - 1, |d.models[i - 1].params|) {
        ForwardsInBack(d, x, i - 1, |d.models[i - 1].params|, e);
      } else {
        ForwardsBack(d, x, i - 1, e);
      }
    }
  }

  lemma VarIsExact(d: Def, x: nat)
    requires x < |d.groups|
    ensures VarExactly(d, Var(d.groups[x], Backwards(d, x, |d.models|), Forwards(d, x, |d.models|)), x)
  {
    hide Forwards, Backwards, IsForward;
    var es, fs := Backwards(d, x, |d.models|), Forwards(d, x, |d.models|);
    forall i | 0 <= i < |fs|
      ensures IsForward(d, x, fs[i])
    {
      ForwardsBack(d, x, |d.models|, fs[i]);
    }
    OnceEach(d, x, |d.models|);
    forall i | 0 <= i < |es|
      ensures EdgeBack(d, x, es[i])
    {
      BackwardsAre(d, x, |d.models|, es[i]);
      assert es[i] in es;
    }
    forall m, l | 0 <= m < |d.models| && 0 <= l < |d.models[m].rets| && d.models[m].rets[l].idx == x
      ensures exists i :: 0 <= i < |es| && es[i].idx == m && es[i].ex == l
    {
      var e := Edge(m, Back(d.models[m].rets[l].via, d.models[m].group), l);
      BackwardsAre(d, x, |d.models|, e);
      var i :| 0 <= i < |es| && es[i] == e;
    }
  }

  lemma BuiltIsExact(d: Def, g: Graph)
    requires DefOk(d) && Built(d, g)
    ensures BuiltExactly(d, g)
  {
    hide DefOk, Backwards, Forwards, ModelExactly, VarExactly, ParamEdges, CheckEdges, RetEdges;
    forall x: nat | x < |g.vars|
      ensures g.vars[x].group == d.groups[x] && VarExactly(d, g.vars[x], x)
    {
      VarIsExact(d, x);
    }
    forall m: nat | m < |g.models|
      ensures ModelKept(d, g.models[m], m)
    {
      assert BuiltModel(d, g, m);
      var at := ModelIsExact(d, g, m);
    }
  }

  // ---------- the builder ----------

  /** `fhk_build_graph`, without counters and pointers: each definition edge is written once each way, and the
      parameters and checks of every model are sorted. */
  method BuildGraph(d: Def, spread: Edge -> Cost) returns (g: Graph)
    requires DefOk(d)
    ensures Built(d, g) && GraphOk(g) && ForwardsOk(g) && BackwardsOk(g)
    ensures BuiltExactly(d, g)
    ensures forall m :: 0 <= m < |g.models| ==> ModelSorted(g.models[m], spread)
  {
    hide DefOk, Backwards, Forwards, GraphOk, ForwardsOk, BackwardsOk, BuiltExactly, ModelSorted;
    var vs := BuildVars(d);
    var ms := [];
    for m := 0 to |d.models|
      invariant |ms| == m && forall i :: 0 <= i < m ==> ModelBuilt(d, vs, ms[i], i) && ModelSorted(ms[i], spread)
    {
      var q := BuildModel(d, m, vs, spread);
      ms := ms + [q];
    }
    g := Graph(vs, ms, d.shadows);
    forall m | 0 <= m < |d.models|
      ensures BuiltModel(d, g, m)
    {
      assert ModelBuilt(d, vs, ms[m], m);
    }
    BuiltGraphOk(d, g);
    BuiltForwards(d, g);
    BuiltBackwards(d, g);
    BuiltIsExact(d, g);
  }

  ghost predicate ModelBuilt(d: Def, vs: seq<Var>, b: Model, m: nat)
    requires DefOk(d) && m < |d.models|
  {
    var a := d.models[m];
    && b.group == a.group && b.k == a.k && b.c == a.c && b.cmin == a.cmin && b.rets == RetEdges(d, m)
    && multiset(b.params) == multiset(ParamEdges(d, m, |a.params|)) && multiset(b.checks) == multiset(CheckEdges(d, m))
    && b.cparam <= |b.params|
    && (forall i :: 0 <= i < |b.params| ==>
        b.params[i].idx < |vs| && (i < b.cparam <==> |vs[b.params[i].idx].models| != 0))
  }

  method BuildModel(d: Def, m: nat, vs: seq<Var>, spread: Edge -> Cost) returns (q: Model)
    requires DefOk(d) && m < |d.models| && |vs| == |d.groups|
    ensures ModelBuilt(d, vs, q, m) && ModelSorted(q, spread)
  {
    var a := d.models[m];
    var es := ParamEdges(d, m, |a.params|);
    hide ParamEdges;
    var ps, cparam := Rebuild.SplitParams(es, vs);
    ghost var split := ps[..];
    Rebuild.Reorder(ps, cparam, spread);
    Rebuild.SplitStays(split, ps[..], cparam, vs);
    var ce := CheckEdges(d, m);
    var cs := new Check[|ce|](i requires 0 <= i < |ce| => ce[i]);
    assert cs[..] == ce;
    Rebuild.Reorder(cs, cs.Length, Rebuild.PenaltyKey);
    q := Model(a.group, a.k, a.c, a.cmin, cs[..], cparam, ps[..], RetEdges(d, m));
  }

  /** `g_build_edges`, the variables' side: all definition edges in order, appended to the variable they lead to. */
  method BuildVars(d: Def) returns (vs: seq<Var>)
    requires DefOk(d)
    ensures |vs| == |d.groups|
    ensures forall x :: 0 <= x < |vs| ==>
        vs[x] == Var(d.groups[x], Backwards(d, x, |d.models|), Forwards(d, x, |d.models|))
  {
    hide DefOk, ForwardsIn, BackwardsIn;
    var n := |d.groups|;
    var a := new Var[n](x requires 0 <= x < n => Var(d.groups[x], [], []));
    for i := 0 to |d.models|
      invariant forall x :: 0 <= x < n ==> a[x] == Var(d.groups[x], Backwards(d, x, i), Forwards(d, x, i))
    {
      AddForwards(d, i, a);
      AddBackwards(d, i, a);
    }
    vs := a[..];
  }

  method AddForwards(d: Def, i: nat, a: array<Var>)
    requires DefOk(d) && i < |d.models| && a.Length == |d.groups|
    modifies a
    ensures forall x: nat :: x < a.Length ==>
        a[x] == old(a[x]).(fwds := old(a[x]).fwds + ForwardsIn(d, x, i, |d.models[i].params|))
  {
    for j := 0 to |d.models[i].params|
      invariant forall x: nat :: x < a.Length ==> a[x] == old(a[x]).(fwds := old(a[x]).fwds + ForwardsIn(d, x, i, j))
    {
      var e := d.models[i].params[j];
      var ei := Edge(i, Back(e.via, d.models[i].group), 0);
      a[e.idx] := a[e.idx].(fwds := a[e.idx].fwds + [ei]);
      assert forall x: nat :: x < a.Length ==>
          ForwardsIn(d, x, i, j + 1) == ForwardsIn(d, x, i, j) + ForwardOf(d, x, i, j);
    }
  }

  method AddBackwards(d: Def, i: nat, a: array<Var>)
    requires DefOk(d) && i < |d.models| && a.Length == |d.groups|
    modifies a
    ensures forall x: nat :: x < a.Length ==>
        a[x] == old(a[x]).(models := old(a[x]).models + BackwardsIn(d, x, i, |d.models[i].rets|))
  {
    for j := 0 to |d.models[i].rets|
      invariant forall x: nat :: x < a.Length ==>
          a[x] == old(a[x]).(models := old(a[x]).models + BackwardsIn(d, x, i, j))
    {
      var e := d.models[i].rets[j];
      var ei := Edge(i, Back(e.via, d.models[i].group), j);
      a[e.idx] := a[e.idx].(models := a[e.idx].models + [ei]);
      assert forall x: nat :: x < a.Length ==>
          BackwardsIn(d, x, i, j + 1) == BackwardsIn(d, x, i, j) + BackwardOf(d, x, i, j);
    }
  }

  // ---------- what the pruner and the solver rely on ----------

  lemma BuiltForwards(d: Def, g: Graph)
    requires DefOk(d) && Built(d, g)
    ensures ForwardsOk(g)
  {
    hide DefOk;
    forall x, i | 0 <= x < |g.vars| && 0 <= i < |g.vars[x].fwds|
      ensures g.vars[x].fwds[i].idx < |g.models|
    {
      ForwardsInRange(d, x, |d.models|);
    }
    forall x, m, c | 0 <= x < |g.vars| && 0 <= m < |g.models|
      ensures CountTo(g.vars[x].fwds, 0, m, c) == CountTo(g.models[m].params, 0, x, c)
    {
      CountForwards(d, x, |d.models|, m, c);
      assert BuiltModel(d, g, m);
      CountPermuted(g.models[m].params, ParamEdges(d, m, |d.models[m].params|), x, c);
    }
  }

  lemma BuiltBackwards(d: Def, g: Graph)
    requires DefOk(d) && Built(d, g)
    ensures BackwardsOk(g)
  {
    hide Backwards, Forwards, ParamEdges, CheckEdges;
    forall m, j | 0 <= m < |g.models| && 0 <= j < |g.models[m].rets|
      ensures g.models[m].rets[j].idx < |g.vars| && HasEdge(g.vars[g.models[m].rets[j].idx].models, m)
    {
      assert BuiltModel(d, g, m);
      var x := g.models[m].rets[j].idx;
      var e := Edge(m, Back(d.models[m].rets[j].via, d.models[m].group), j);
      BackwardsAre(d, x, |d.models|, e);
      assert e in g.vars[x].models;
    }
    forall x, i | 0 <= x < |g.vars| && 0 <= i < |g.vars[x].models| && g.vars[x].models[i].idx < |g.models|
      ensures HasEdge(g.models[g.vars[x].models[i].idx].rets, x)
    {
      var e := g.vars[x].models[i];
      BackwardsAre(d, x, |d.models|, e);
      assert BuiltModel(d, g, e.idx);
      assert g.models[e.idx].rets[e.ex].idx == x;
    }
  }

  lemma BuiltGraphOk(d: Def, g: Graph)
    requires DefOk(d) && Built(d, g)
    ensures GraphOk(g)
  {
    hide Backwards, Forwards, ParamEdges;
    forall m | 0 <= m < |g.models|
      ensures ModelOk(g, g.models[m])
    {
      assert BuiltModel(d, g, m);
      forall j | 0 <= j < |g.models[m].checks|
        ensures g.models[m].checks[j].idx < |g.shadows| && g.models[m].checks[j].penalty >= 0.0
      {
        assert g.models[m].checks[j] in multiset(g.models[m].checks);
        assert g.models[m].checks[j] in CheckEdges(d, m);
      }
    }
    forall x, i | 0 <= x < |g.vars| && 0 <= i < |g.vars[x].models|
      ensures g.vars[x].models[i].idx < |g.models|
    {
      BackwardsAre(d, x, |d.models|, g.vars[x].models[i]);
    }
  }
}
