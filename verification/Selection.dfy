/** What the pruner selects: everything that a retained node leads to under its rule for choosing models. */
module Selection {
  import opened Costs
  import opened Graphs
  import opened Bounds

  datatype Node = V(x: nat) | M(m: nat)

  /** The graph with its bounds; infinite gray bounds mark what is unreachable or skipped. */
  datatype Bounded = Bounded(g: Graph, gray: Limits, black: Limits)

  predicate BoundedOk(k: Bounded) {
    && GraphOk(k.g)
    && |k.gray.v| == |k.black.v| == |k.g.vars| && |k.gray.m| == |k.black.m| == |k.g.models|
    && (forall m, j :: 0 <= m < |k.g.models| && 0 <= j < |k.g.models[m].rets| ==>
        k.g.models[m].rets[j].idx < |k.g.vars|)
  }

  predicate IsNode(k: Bounded, u: Node) {
    if u.V? then u.x < |k.g.vars| else u.m < |k.g.models|
  }

  function GrayOf(k: Bounded, u: Node): Cost
    requires BoundedOk(k) && IsNode(k, u)
  {
    if u.V? then k.gray.v[u.x] else k.gray.m[u.m]
  }

  function ModelAt(k: Bounded, x: nat, i: nat): nat
    requires BoundedOk(k) && x < |k.g.vars| && i < |k.g.vars[x].models|
  {
    k.g.vars[x].models[i].idx
  }

  /** `needbeta` before model edge `i`: no model that attains the black bound has been picked yet. */
  function NeedBeta(k: Bounded, x: nat, i: nat): bool
    requires BoundedOk(k) && x < |k.g.vars| && i <= |k.g.vars[x].models|
    decreases i, 0
  {
    if i == 0 then Lt(k.black.v[x], Inf)
    else NeedBeta(k, x, i - 1) && (Picked(k, x, i - 1) ==> Lt(k.black.v[x], k.black.m[ModelAt(k, x, i - 1)]))
  }

  /** The model behind edge `i` may beat the black bound of `x`, or is needed to attain it. */
  predicate Picked(k: Bounded, x: nat, i: nat)
    requires BoundedOk(k) && x < |k.g.vars| && i < |k.g.vars[x].models|
    decreases i, 1
  {
    || Lt(k.gray.m[ModelAt(k, x, i)], k.black.v[x])
    || (NeedBeta(k, x, i) && k.black.m[ModelAt(k, x, i)] == k.black.v[x])
  }

  predicate PickedAt(k: Bounded, x: nat, i: nat, m: nat)
    requires BoundedOk(k)
  {
    x < |k.g.vars| && i < |k.g.vars[x].models| && Picked(k, x, i) && ModelAt(k, x, i) == m
  }

  predicate ChecksAt(k: Bounded, m: nat, e: nat, x: nat)
    requires BoundedOk(k)
  {
    m < |k.g.models| && e < |k.g.models[m].checks| && Checked(k.g, m, e) == x && x < |k.g.vars| && k.gray.v[x].Fin?
  }

  predicate TakesAt(k: Bounded, m: nat, j: nat, x: nat) {
    m < |k.g.models| && j < |k.g.models[m].params| && k.g.models[m].params[j].idx == x
  }

  /** Selecting `u` selects `w`. */
  ghost predicate Succ(k: Bounded, u: Node, w: Node)
    requires BoundedOk(k)
  {
    if u.V? then w.M? && exists i: nat :: PickedAt(k, u.x, i, w.m)
    else w.V? && ((exists e: nat :: ChecksAt(k, u.m, e, w.x)) || (exists j: nat :: TakesAt(k, u.m, j, w.x)))
  }

  ghost predicate IsPath(k: Bounded, p: seq<Node>)
    requires BoundedOk(k)
  {
    |p| > 0 && forall i :: 0 < i < |p| ==> Succ(k, p[i - 1], p[i])
  }

  /** A chain of selections leads from `a` to `b`. */
  ghost predicate Leads(k: Bounded, a: Node, b: Node)
    requires BoundedOk(k)
  {
    exists p :: IsPath(k, p) && p[0] == a && p[|p| - 1] == b
  }

  /** Model edge `i` of `x` matters: its model may be cheaper than the black bound, or it is the first that attains a
      finite one. */
  predicate Matters(k: Bounded, x: nat, i: nat)
    requires BoundedOk(k) && x < |k.g.vars| && i < |k.g.vars[x].models|
  {
    var beta, m := k.black.v[x], k.g.vars[x].models[i].idx;
    || Lt(k.gray.m[m], beta)
    || (beta.Fin? && k.black.m[m] == beta
        && forall j :: 0 <= j < i ==> Lt(beta, k.black.m[k.g.vars[x].models[j].idx]))
  }

  lemma {:induction false} NeedBetaMeans(k: Bounded, x: nat, i: nat)
    requires BoundedOk(k) && x < |k.g.vars| && i <= |k.g.vars[x].models|
    requires forall m :: 0 <= m < |k.g.models| ==> Le(k.gray.m[m], k.black.m[m])
    ensures NeedBeta(k, x, i) <==>
        k.black.v[x].Fin? && forall j :: 0 <= j < i ==> Lt(k.black.v[x], k.black.m[k.g.vars[x].models[j].idx])
  {
    if i > 0 {
      NeedBetaMeans(k, x, i - 1);
    }
  }

  lemma PickedMatters(k: Bounded, x: nat, i: nat)
    requires BoundedOk(k) && x < |k.g.vars| && i < |k.g.vars[x].models|
    requires forall m :: 0 <= m < |k.g.models| ==> Le(k.gray.m[m], k.black.m[m])
    ensures Picked(k, x, i) <==> Matters(k, x, i)
  {
    NeedBetaMeans(k, x, i);
  }

  /** What the rule selects next to a variable, without the order in which it goes through the models: those that
      matter. */
  lemma VarSelects(k: Bounded, x: nat, m: nat)
    requires BoundedOk(k) && x < |k.g.vars| && forall l :: 0 <= l < |k.g.models| ==> Le(k.gray.m[l], k.black.m[l])
    ensures Succ(k, V(x), M(m)) <==>
        exists i: nat :: i < |k.g.vars[x].models| && Matters(k, x, i) && k.g.vars[x].models[i].idx == m
  {
    hide Picked, Matters, NeedBeta;
    forall i: nat | i < |k.g.vars[x].models|
      ensures PickedAt(k, x, i, m) <==> Matters(k, x, i) && k.g.vars[x].models[i].idx == m
    {
      PickedMatters(k, x, i);
    }
  }

  /** And next to a model: what it takes, and the checked variables that can be had. */
  lemma ModelSelects(k: Bounded, m: nat, x: nat)
    requires BoundedOk(k) && m < |k.g.models|
    ensures Succ(k, M(m), V(x)) <==>
        || (exists j :: 0 <= j < |k.g.models[m].params| && k.g.models[m].params[j].idx == x)
        || (x < |k.g.vars| && k.gray.v[x].Fin?
            && exists e :: 0 <= e < |k.g.models[m].checks| && k.g.shadows[k.g.models[m].checks[e].idx] == x)
  {
    assert ModelOk(k.g, k.g.models[m]);
    forall e: nat | e < |k.g.models[m].checks|
      ensures ChecksAt(k, m, e, x) <==>
          x < |k.g.vars| && k.gray.v[x].Fin? && k.g.shadows[k.g.models[m].checks[e].idx] == x
    {
    }
    forall j: nat | j < |k.g.models[m].params|
      ensures TakesAt(k, m, j, x) <==> k.g.models[m].params[j].idx == x
    {
    }
  }

  lemma LeadsSelf(k: Bounded, a: Node)
    requires BoundedOk(k)
    ensures Leads(k, a, a)
  {
    assert IsPath(k, [a]);
  }

  lemma LeadsCons(k: Bounded, a: Node, b: Node, c: Node)
    requires BoundedOk(k) && Succ(k, a, b) && Leads(k, b, c)
    ensures Leads(k, a, c)
  {
    var p :| IsPath(k, p) && p[0] == b && p[|p| - 1] == c;
    hide BoundedOk, Succ;
    assert IsPath(k, [a] + p);
  }

  // ---------- flags ----------

  /** Flag bits of a variable that do not depend on the colour. */
  datatype VarFlags = VarFlags(given: bool, skip: bool, select: bool, selected: bool, ret: bool)

  /** Flag bits of a model. */
  datatype ModFlags = ModFlags(skip: bool, select: bool, selected: bool)

  datatype Flags = Flags(v: seq<VarFlags>, m: seq<ModFlags>)

  predicate IsSel(f: Flags, u: Node) {
    if u.V? then u.x < |f.v| && f.v[u.x].selected else u.m < |f.m| && f.m[u.m].selected
  }

  predicate IsNew(a: Flags, b: Flags, u: Node) {
    IsSel(b, u) && !IsSel(a, u)
  }

  ghost predicate AllSucc(k: Bounded, f: Flags, u: Node)
    requires BoundedOk(k)
  {
    forall w :: Succ(k, u, w) ==> IsSel(f, w)
  }

  predicate Returns(k: Bounded, m: nat, x: nat) {
    m < |k.g.models| && exists j :: 0 <= j < |k.g.models[m].rets| && k.g.models[m].rets[j].idx == x
  }

  /** `x` is returned by a model that is new in `b`, other than those in `open`. */
  ghost predicate NewReturn(k: Bounded, a: Flags, b: Flags, open: set<Node>, x: nat) {
    exists m: nat :: IsNew(a, b, M(m)) && M(m) !in open && Returns(k, m, x)
  }

  /** Only the bits that selection sets have changed: `selected` and `select` together, and `ret`. */
  predicate BitsKept(a: Flags, b: Flags) {
    && |b.v| == |a.v| && |b.m| == |a.m|
    && (forall x :: 0 <= x < |a.v| ==>
          b.v[x] == a.v[x].(ret := b.v[x].ret, selected := b.v[x].selected,
                            select := a.v[x].select || (b.v[x].selected && !a.v[x].selected)))
    && (forall m :: 0 <= m < |a.m| ==>
          b.m[m] == a.m[m].(selected := b.m[m].selected,
                            select := a.m[m].select || (b.m[m].selected && !a.m[m].selected)))
  }

  ghost predicate RetsOk(k: Bounded, a: Flags, b: Flags, open: set<Node>) {
    |b.v| == |a.v| && forall x :: 0 <= x < |a.v| ==> (b.v[x].ret <==> a.v[x].ret || NewReturn(k, a, b, open, x))
  }

  ghost predicate NewClosed(k: Bounded, a: Flags, b: Flags, open: set<Node>)
    requires BoundedOk(k)
  {
    forall u :: IsNew(a, b, u) && u !in open ==> AllSucc(k, b, u)
  }

  ghost predicate NewFrom(k: Bounded, a: Flags, b: Flags, from: Node)
    requires BoundedOk(k)
  {
    forall u :: IsNew(a, b, u) ==> IsNode(k, u) && Leads(k, from, u)
  }

  ghost predicate Sticks(a: Flags, b: Flags) {
    forall u :: IsSel(a, u) ==> IsSel(b, u)
  }

  /** From `a` to `b`, selection added what `from` leads to; all but the nodes in `open` have all their successors. */
  ghost predicate Grows(k: Bounded, a: Flags, b: Flags, from: Node, open: set<Node>)
    requires BoundedOk(k)
  {
    BitsKept(a, b) && Sticks(a, b) && RetsOk(k, a, b, open) && NewClosed(k, a, b, open) && NewFrom(k, a, b, from)
  }

  lemma GrowsNot(k: Bounded, a: Flags, from: Node)
    requires BoundedOk(k)
    ensures Grows(k, a, a, from, {})
  {
  }

  lemma RetsTrans(k: Bounded, a: Flags, b: Flags, c: Flags, open: set<Node>)
    requires Sticks(a, b) && Sticks(b, c) && RetsOk(k, a, b, open) && RetsOk(k, b, c, {})
    requires forall u :: u in open ==> IsSel(b, u)
    ensures RetsOk(k, a, c, open)
  {
    forall x | 0 <= x < |a.v|
      ensures c.v[x].ret <==> a.v[x].ret || NewReturn(k, a, c, open, x)
    {
      if NewReturn(k, a, c, open, x) {
        var m: nat :| IsNew(a, c, M(m)) && M(m) !in open && Returns(k, m, x);
        if IsSel(b, M(m)) {
          assert IsNew(a, b, M(m));
        } else {
          assert IsNew(b, c, M(m));
        }
      }
      if NewReturn(k, a, b, open, x) {
        var m: nat :| IsNew(a, b, M(m)) && M(m) !in open && Returns(k, m, x);
        assert IsNew(a, c, M(m));
      }
      if NewReturn(k, b, c, {}, x) {
        var m: nat :| IsNew(b, c, M(m)) && Returns(k, m, x);
        assert IsNew(a, c, M(m)) && M(m) !in open;
      }
    }
  }

  /** Selecting a successor of `from` on the way. */
  lemma GrowsTrans(k: Bounded, a: Flags, b: Flags, c: Flags, from: Node, next: Node, open: set<Node>)
    requires BoundedOk(k) && Grows(k, a, b, from, open) && Grows(k, b, c, next, {}) && Succ(k, from, next)
    requires forall u :: u in open ==> IsSel(b, u)
    ensures Grows(k, a, c, from, open)
  {
    hide BoundedOk, Returns, Succ, NewReturn, IsSel;
    RetsTrans(k, a, b, c, open);
    forall u | IsNew(a, c, u)
      ensures IsNode(k, u) && Leads(k, from, u)
    {
      if IsNew(b, c, u) {
        LeadsCons(k, from, next, u);
      } else {
        assert IsNew(a, b, u);
      }
    }
    BitsTrans(a, b, c);
    forall u | IsNew(a, c, u) && u !in open
      ensures AllSucc(k, c, u)
    {
      if IsNew(a, b, u) {
        assert AllSucc(k, b, u);
      } else {
        assert IsNew(b, c, u);
      }
    }
  }

  lemma BitsTrans(a: Flags, b: Flags, c: Flags)
    requires BitsKept(a, b) && BitsKept(b, c) && Sticks(a, b) && Sticks(b, c)
    ensures BitsKept(a, c)
  {
    forall x | 0 <= x < |a.v|
      ensures c.v[x] == a.v[x].(ret := c.v[x].ret, selected := c.v[x].selected,
                                select := a.v[x].select || (c.v[x].selected && !a.v[x].selected))
    {
      assert IsSel(a, V(x)) ==> IsSel(b, V(x));
      assert IsSel(b, V(x)) ==> IsSel(c, V(x));
    }
    forall m | 0 <= m < |a.m|
      ensures c.m[m] == a.m[m].(selected := c.m[m].selected,
                                select := a.m[m].select || (c.m[m].selected && !a.m[m].selected))
    {
      assert IsSel(a, M(m)) ==> IsSel(b, M(m));
      assert IsSel(b, M(m)) ==> IsSel(c, M(m));
    }
  }

  function SelectIn(f: Flags, u: Node): Flags
    requires if u.V? then u.x < |f.v| else u.m < |f.m|
  {
    if u.V? then f.(v := f.v[u.x := f.v[u.x].(selected := true, select := true)])
    else f.(m := f.m[u.m := f.m[u.m].(selected := true, select := true)])
  }

  /** The node itself is selected first. */
  lemma GrowsFirst(k: Bounded, a: Flags, u: Node)
    requires BoundedOk(k) && IsNode(k, u) && |a.v| == |k.g.vars| && |a.m| == |k.g.models| && !IsSel(a, u)
    ensures Grows(k, a, SelectIn(a, u), u, {u})
  {
    LeadsSelf(k, u);
    hide BoundedOk, Leads, Succ;
  }

  /** When all its successors are selected, the node itself is done. */
  lemma GrowsDone(k: Bounded, a: Flags, b: Flags, u: Node)
    requires BoundedOk(k) && Grows(k, a, b, u, {u}) && AllSucc(k, b, u) && u.V?
    ensures Grows(k, a, b, u, {})
  {
    hide BoundedOk, Leads, AllSucc, Returns;
    forall x | 0 <= x < |a.v|
      ensures NewReturn(k, a, b, {u}, x) <==> NewReturn(k, a, b, {}, x)
    {
    }
  }

  /** The flags with the return edges of model `m`, up to `j`, marked. */
  ghost predicate RetsMarked(k: Bounded, b: Flags, c: Flags, m: nat, j: nat)
    requires m < |k.g.models| && j <= |k.g.models[m].rets|
  {
    && c.m == b.m && |c.v| == |b.v|
    && (forall x :: 0 <= x < |b.v| ==>
        c.v[x] == b.v[x].(ret := b.v[x].ret || exists i :: 0 <= i < j && k.g.models[m].rets[i].idx == x))
  }

  lemma GrowsReturns(k: Bounded, a: Flags, b: Flags, c: Flags, m: nat)
    requires BoundedOk(k) && m < |k.g.models| && Grows(k, a, b, M(m), {M(m)}) && AllSucc(k, b, M(m))
    requires IsNew(a, b, M(m))
    requires RetsMarked(k, b, c, m, |k.g.models[m].rets|)
    ensures Grows(k, a, c, M(m), {})
  {
    hide BoundedOk, Leads, Succ;
    forall u
      ensures IsSel(c, u) <==> IsSel(b, u)
    {
    }
    forall u | IsNew(a, c, u)
      ensures AllSucc(k, c, u)
    {
      assert IsNew(a, b, u) && AllSucc(k, b, u);
    }
    SameSelKept(a, b, c);
    forall x | 0 <= x < |a.v|
      ensures c.v[x].ret <==> a.v[x].ret || NewReturn(k, a, c, {}, x)
    {
      ReturnsMarked(k, a, b, c, m, x);
    }
  }

  lemma SameSelKept(a: Flags, b: Flags, c: Flags)
    requires BitsKept(a, b) && Sticks(a, b) && |c.v| == |b.v| && c.m == b.m
    requires forall x :: 0 <= x < |b.v| ==> c.v[x] == b.v[x].(ret := c.v[x].ret)
    ensures BitsKept(a, c) && Sticks(a, c)
  {
    forall u | IsSel(a, u)
      ensures IsSel(c, u)
    {
      assert IsSel(b, u);
    }
  }

  lemma ReturnsMarked(k: Bounded, a: Flags, b: Flags, c: Flags, m: nat, x: nat)
    requires m < |k.g.models| && IsNew(a, b, M(m)) && RetsOk(k, a, b, {M(m)}) && x < |a.v|
    requires RetsMarked(k, b, c, m, |k.g.models[m].rets|)
    ensures c.v[x].ret <==> a.v[x].ret || NewReturn(k, a, c, {}, x)
  {
    if Returns(k, m, x) {
      assert IsNew(a, c, M(m));
    }
    if NewReturn(k, a, b, {M(m)}, x) {
      var l: nat :| IsNew(a, b, M(l)) && M(l) !in {M(m)} && Returns(k, l, x);
      assert IsNew(a, c, M(l));
    }
    if NewReturn(k, a, c, {}, x) {
      var l: nat :| IsNew(a, c, M(l)) && M(l) !in {} && Returns(k, l, x);
      assert l == m || (IsNew(a, b, M(l)) && M(l) !in {M(m)});
    }
  }

  // ---------- lemmas for the search ----------

  /** Exactly the nodes with infinite gray bounds are flagged as skipped. */
  ghost predicate SkipsInfinite(k: Bounded, f: Flags)
    requires BoundedOk(k)
  {
    && |f.v| == |k.g.vars| && |f.m| == |k.g.models|
    && (forall x :: 0 <= x < |f.v| ==> (f.v[x].skip <==> k.gray.v[x].Inf?))
    && (forall m :: 0 <= m < |f.m| ==> (f.m[m].skip <==> k.gray.m[m].Inf?))
  }

  lemma PickedBy(k: Bounded, x: nat, i: nat)
    requires BoundedOk(k) && x < |k.g.vars| && i < |k.g.vars[x].models|
    ensures var m := k.g.vars[x].models[i].idx;
            && m < |k.g.models|
            && (Picked(k, x, i) <==>
                Lt(k.gray.m[m], k.black.v[x]) || (NeedBeta(k, x, i) && k.black.m[m] == k.black.v[x]))
            && (NeedBeta(k, x, i + 1) <==> NeedBeta(k, x, i) && (Picked(k, x, i) ==> Lt(k.black.v[x], k.black.m[m])))
  {
  }

  /** Selection keeps what the skip flags say, and makes progress. */
  lemma GrowsFlags(k: Bounded, a: Flags, b: Flags, from: Node, open: set<Node>)
    requires BoundedOk(k) && Grows(k, a, b, from, open)
    ensures SkipsInfinite(k, a) ==> SkipsInfinite(k, b)
    ensures Unselected(b) <= Unselected(a) && forall u :: IsNew(a, b, u) ==> Unselected(b) < Unselected(a)
  {
    hide BoundedOk, Unselected, RetsOk, NewClosed, NewFrom;
    SticksLess(a, b);
  }

  lemma GrowsSticks(k: Bounded, a: Flags, b: Flags, from: Node, open: set<Node>)
    requires BoundedOk(k) && Grows(k, a, b, from, open)
    ensures forall u :: IsSel(a, u) ==> IsSel(b, u)
  {
    hide BoundedOk;
  }

  lemma NeedBetaFirst(k: Bounded, x: nat)
    requires BoundedOk(k) && x < |k.g.vars|
    ensures NeedBeta(k, x, 0) <==> Lt(k.black.v[x], Inf)
  {
  }

  lemma CheckedVar(k: Bounded, f: Flags, m: nat, e: nat)
    requires BoundedOk(k) && SkipsInfinite(k, f) && m < |k.g.models| && e < |k.g.models[m].checks|
    ensures GraphOk(k.g) && k.g.models[m].checks[e].idx < |k.g.shadows|
    ensures var x := Checked(k.g, m, e); x < |f.v| && (f.v[x].skip <==> !ChecksAt(k, m, e, x))
  {
    assert ModelOk(k.g, k.g.models[m]);
  }

  lemma TakenVar(k: Bounded, m: nat, j: nat)
    requires BoundedOk(k) && m < |k.g.models| && j < |k.g.models[m].params|
    ensures k.g.models[m].params[j].idx < |k.g.vars|
  {
    assert ModelOk(k.g, k.g.models[m]);
  }

  lemma ModelDone(k: Bounded, f: Flags, m: nat)
    requires BoundedOk(k) && m < |k.g.models|
    requires forall e, x: nat :: 0 <= e < |k.g.models[m].checks| && ChecksAt(k, m, e, x) ==> IsSel(f, V(x))
    requires forall j, x: nat :: 0 <= j < |k.g.models[m].params| && TakesAt(k, m, j, x) ==> IsSel(f, V(x))
    ensures AllSucc(k, f, M(m))
  {
    hide BoundedOk, IsSel;
  }

  lemma VarDone(k: Bounded, f: Flags, x: nat)
    requires BoundedOk(k) && x < |k.g.vars|
    requires forall i, m :: 0 <= i < |k.g.vars[x].models| && PickedAt(k, x, i, m) ==> IsSel(f, M(m))
    ensures AllSucc(k, f, V(x))
  {
  }

  // ---------- the whole selection ----------

  /** A node that the caller wants to keep. */
  predicate IsRoot(f: Flags, u: Node) {
    if u.V? then u.x < |f.v| && f.v[u.x].select else u.m < |f.m| && f.m[u.m].select
  }

  ghost predicate RootLeads(k: Bounded, f: Flags, u: Node)
    requires BoundedOk(k)
  {
    exists r :: IsRoot(f, r) && Leads(k, r, u)
  }

  /** From the caller's flags `a`, where nothing is selected, to `b`: what roots lead to has been added. */
  ghost predicate GrowsRoots(k: Bounded, a: Flags, b: Flags)
    requires BoundedOk(k)
  {
    && BitsKept(a, b) && Sticks(a, b) && RetsOk(k, a, b, {}) && NewClosed(k, a, b, {})
    && (forall u :: IsNew(a, b, u) ==> IsNode(k, u) && RootLeads(k, a, u))
  }

  predicate Unselects(f: Flags) {
    && (forall x :: 0 <= x < |f.v| ==> !f.v[x].selected && !f.v[x].ret)
    && (forall m :: 0 <= m < |f.m| ==> !f.m[m].selected)
  }

  lemma GrowsRootsNot(k: Bounded, a: Flags)
    requires BoundedOk(k)
    ensures GrowsRoots(k, a, a)
  {
  }

  lemma LeadsTrans(k: Bounded, a: Node, b: Node, c: Node)
    requires BoundedOk(k) && Leads(k, a, b) && Leads(k, b, c)
    ensures Leads(k, a, c)
  {
    var p :| IsPath(k, p) && p[0] == a && p[|p| - 1] == b;
    var q :| IsPath(k, q) && q[0] == b && q[|q| - 1] == c;
    hide BoundedOk, Succ;
    var r := p + q[1..];
    forall i | 0 < i < |r|
      ensures Succ(k, r[i - 1], r[i])
    {
      if i >= |p| {
        assert r[i - 1] == q[i - |p|] && r[i] == q[i - |p| + 1];
      }
    }
    assert IsPath(k, r);
  }

  /** All roots have finite gray bounds. */
  ghost predicate KeptFinite(k: Bounded, f: Flags)
    requires BoundedOk(k)
  {
    forall u :: IsRoot(f, u) && IsNode(k, u) ==> GrayOf(k, u).Fin?
  }

  /** Roots stay roots, and the skip flags keep saying what is infinite. */
  lemma RootsStay(k: Bounded, a: Flags, b: Flags, u: Node)
    requires BoundedOk(k) && GrowsRoots(k, a, b) && IsRoot(a, u)
    ensures IsRoot(b, u)
  {
    hide BoundedOk, RetsOk, NewClosed, RootLeads;
  }

  /** A node that carries the retain bit on the way is a root or led to by one. */
  lemma SelectBit(k: Bounded, a: Flags, b: Flags, u: Node)
    requires BoundedOk(k) && GrowsRoots(k, a, b) && Unselects(a) && IsRoot(b, u)
    ensures RootLeads(k, a, u)
  {
    LeadsSelf(k, u);
    hide BoundedOk, Leads, Succ, RetsOk, NewClosed;
    if !IsRoot(a, u) {
      assert IsNew(a, b, u);
    } else {
      assert IsRoot(a, u) && Leads(k, u, u);
    }
  }

  /** Led to by a root that has a gray bound. */
  ghost predicate FineLeads(k: Bounded, f: Flags, u: Node)
    requires BoundedOk(k)
  {
    exists r :: IsRoot(f, r) && IsNode(k, r) && GrayOf(k, r).Fin? && Leads(k, r, u)
  }

  /** Whatever has been selected so far is. */
  ghost predicate AllFine(k: Bounded, a: Flags, b: Flags)
    requires BoundedOk(k)
  {
    forall u :: IsNew(a, b, u) ==> FineLeads(k, a, u)
  }

  lemma FineBit(k: Bounded, a: Flags, b: Flags, u: Node)
    requires BoundedOk(k) && GrowsRoots(k, a, b) && AllFine(k, a, b) && Unselects(a) && IsRoot(b, u)
    ensures IsRoot(a, u) || FineLeads(k, a, u)
  {
    hide BoundedOk, Leads, Succ, RetsOk, NewClosed, FineLeads;
    if !IsRoot(a, u) {
      assert IsNew(a, b, u);
    }
  }

  lemma AllFineTrans(k: Bounded, a: Flags, b: Flags, c: Flags, u: Node)
    requires BoundedOk(k) && AllFine(k, a, b) && Grows(k, b, c, u, {}) && IsNode(k, u)
    requires (IsRoot(a, u) && GrayOf(k, u).Fin?) || FineLeads(k, a, u)
    ensures AllFine(k, a, c)
  {
    LeadsSelf(k, u);
    hide BoundedOk, Leads, Succ, IsSel, Returns, NewReturn;
    var r :| IsRoot(a, r) && IsNode(k, r) && GrayOf(k, r).Fin? && Leads(k, r, u);
    forall w | IsNew(a, c, w)
      ensures FineLeads(k, a, w)
    {
      if IsNew(b, c, w) {
        LeadsTrans(k, r, u, w);
      } else {
        assert IsNew(a, b, w);
      }
    }
  }

  lemma GrowsRootsTrans(k: Bounded, a: Flags, b: Flags, c: Flags, u: Node)
    requires BoundedOk(k) && GrowsRoots(k, a, b) && Grows(k, b, c, u, {}) && RootLeads(k, a, u)
    ensures GrowsRoots(k, a, c)
  {
    hide BoundedOk, Leads, Succ, IsSel, Returns, NewReturn;
    RetsTrans(k, a, b, c, {});
    BitsTrans(a, b, c);
    var r :| IsRoot(a, r) && Leads(k, r, u);
    forall w | IsNew(a, c, w)
      ensures IsNode(k, w) && RootLeads(k, a, w) && AllSucc(k, c, w)
    {
      if IsNew(b, c, w) {
        LeadsTrans(k, r, u, w);
      } else {
        assert IsNew(a, b, w) && AllSucc(k, b, w);
      }
    }
  }

  lemma {:induction false} ClosedPath(k: Bounded, f: Flags, p: seq<Node>)
    requires BoundedOk(k) && IsPath(k, p) && IsSel(f, p[0]) && forall u :: IsSel(f, u) ==> AllSucc(k, f, u)
    ensures IsSel(f, p[|p| - 1])
    decreases |p|
  {
    hide BoundedOk, Succ, IsSel;
    if |p| > 1 {
      var q := p[..|p| - 1];
      assert IsPath(k, q);
      ClosedPath(k, f, q);
      assert Succ(k, p[|p| - 2], p[|p| - 1]);
    }
  }

  /** The selection is exactly what the roots lead to; returned variables are kept as well. */
  ghost predicate SelectedExactly(k: Bounded, a: Flags, f: Flags)
    requires BoundedOk(k)
  {
    && |f.v| == |k.g.vars| && |f.m| == |k.g.models|
    && (forall u :: IsSel(f, u) <==> IsNode(k, u) && RootLeads(k, a, u))
    && (forall x: nat :: x < |f.v| ==> (f.v[x].ret <==> exists m: nat :: IsSel(f, M(m)) && Returns(k, m, x)))
    && (forall x: nat :: x < |f.v| ==> (f.v[x].select <==> f.v[x].selected || f.v[x].ret))
    && (forall m: nat :: m < |f.m| ==> (f.m[m].select <==> f.m[m].selected))
  }

  /** The flags once returned variables are kept as well. */
  predicate RetsKept(b: Flags, c: Flags) {
    c.m == b.m && |c.v| == |b.v| && forall x :: 0 <= x < |b.v| ==>
        c.v[x] == b.v[x].(select := b.v[x].select || b.v[x].ret)
  }

  lemma SelectedIffLed(k: Bounded, a: Flags, b: Flags, u: Node)
    requires BoundedOk(k) && GrowsRoots(k, a, b) && Unselects(a) && FlagsSized(k, a)
    requires forall r :: IsRoot(a, r) ==> IsSel(b, r)
    ensures IsSel(b, u) <==> IsNode(k, u) && RootLeads(k, a, u)
  {
    hide BoundedOk, Succ, RetsOk, BitsKept;
    forall w | IsSel(b, w)
      ensures AllSucc(k, b, w)
    {
      assert IsNew(a, b, w);
    }
    if IsSel(b, u) {
      assert IsNew(a, b, u);
    }
    if RootLeads(k, a, u) {
      var r :| IsRoot(a, r) && Leads(k, r, u);
      var p :| IsPath(k, p) && p[0] == r && p[|p| - 1] == u;
      ClosedPath(k, b, p);
    }
  }

  predicate FlagsSized(k: Bounded, f: Flags) {
    |f.v| == |k.g.vars| && |f.m| == |k.g.models|
  }

  lemma SelectionDone(k: Bounded, a: Flags, b: Flags, c: Flags)
    requires BoundedOk(k) && GrowsRoots(k, a, b) && Unselects(a) && FlagsSized(k, a) && RetsKept(b, c)
    requires forall r :: IsRoot(a, r) ==> IsSel(b, r)
    ensures SelectedExactly(k, a, c)
  {
    hide BoundedOk, Succ, Leads, RootLeads, NewClosed;
    forall u
      ensures IsSel(c, u) <==> IsNode(k, u) && RootLeads(k, a, u)
    {
      SelectedIffLed(k, a, b, u);
      assert IsSel(c, u) == IsSel(b, u);
    }
    RetsDone(k, a, b, c);
    forall x: nat | x < |c.v|
      ensures c.v[x].select <==> c.v[x].selected || c.v[x].ret
    {
      assert IsRoot(a, V(x)) ==> IsSel(b, V(x));
    }
    forall m: nat | m < |c.m|
      ensures c.m[m].select <==> c.m[m].selected
    {
      assert IsRoot(a, M(m)) ==> IsSel(b, M(m));
    }
  }

  lemma RetsDone(k: Bounded, a: Flags, b: Flags, c: Flags)
    requires RetsOk(k, a, b, {}) && Unselects(a) && RetsKept(b, c)
    ensures forall x: nat :: x < |c.v| ==> (c.v[x].ret <==> exists m: nat :: IsSel(c, M(m)) && Returns(k, m, x))
  {
    hide Returns;
    forall x: nat | x < |c.v|
      ensures c.v[x].ret <==> exists m: nat :: IsSel(c, M(m)) && Returns(k, m, x)
    {
      if m: nat :| IsSel(c, M(m)) && Returns(k, m, x) {
        assert IsNew(a, b, M(m)) && M(m) !in {};
      }
      if NewReturn(k, a, b, {}, x) {
        var m: nat :| IsNew(a, b, M(m)) && M(m) !in {} && Returns(k, m, x);
        assert IsSel(c, M(m));
      }
    }
  }

  // ---------- progress ----------

  function Unmarked(s: seq<bool>): nat {
    if s == [] then 0 else (if s[0] then 0 else 1) + Unmarked(s[1..])
  }

  function SelBits(f: Flags): seq<bool> {
    seq(|f.v|, x requires 0 <= x < |f.v| => f.v[x].selected) + seq(|f.m|, m requires 0 <= m < |f.m| => f.m[m].selected)
  }

  /** Nodes that are not selected. */
  function Unselected(f: Flags): nat {
    Unmarked(SelBits(f))
  }

  lemma {:induction false} UnmarkedLess(s: seq<bool>, t: seq<bool>)
    requires |s| == |t| && forall i :: 0 <= i < |s| ==> s[i] ==> t[i]
    ensures Unmarked(t) <= Unmarked(s)
    ensures (exists i :: 0 <= i < |s| && t[i] && !s[i]) ==> Unmarked(t) < Unmarked(s)
  {
    if s != [] {
      UnmarkedLess(s[1..], t[1..]);
      if i :| 0 <= i < |s| && t[i] && !s[i] {
        if i > 0 {
          assert t[1..][i - 1] && !s[1..][i - 1];
        }
      }
    }
  }

  lemma SticksLess(a: Flags, b: Flags)
    requires |a.v| == |b.v| && |a.m| == |b.m| && Sticks(a, b)
    ensures Unselected(b) <= Unselected(a)
    ensures forall u :: IsNew(a, b, u) ==> Unselected(b) < Unselected(a)
  {
    var s, t := SelBits(a), SelBits(b);
    forall i | 0 <= i < |s| && s[i]
      ensures t[i]
    {
      var u := if i < |a.v| then V(i) else M(i - |a.v|);
      assert IsSel(a, u);
    }
    UnmarkedLess(s, t);
    forall u | IsNew(a, b, u)
      ensures Unselected(b) < Unselected(a)
    {
      var i := if u.V? then u.x else |a.v| + u.m;
      assert t[i] && !s[i];
    }
  }
}
