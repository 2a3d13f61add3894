/** Where the graph builder puts the edges: one block after the other, each once, in exactly the space it asked for. */
module Layouts {
  import opened Graphs
  import opened Build
  import opened Sims

  /** The blocks of edges: model and forward edges of a variable, checks with parameters and returns of a model. */
  datatype Slot = VarModels(x: nat) | VarFwds(x: nat) | ModelIn(m: nat) | ModelOut(m: nat)

  /** Bytes of an `fhk_edge` and of an `fhk_shedge`. */
  const EDGE: nat := 4
  const SHEDGE: nat := 8

  predicate IsSlot(d: Def, s: Slot) {
    match s
    case VarModels(x) => x < |d.groups|
    case VarFwds(x) => x < |d.groups|
    case ModelIn(m) => m < |d.models|
    case ModelOut(m) => m < |d.models|
  }

  function SizeOf(d: Def, s: Slot): nat
    requires IsSlot(d, s)
  {
    match s
    case VarModels(x) => EDGE * |Backwards(d, x, |d.models|)|
    case VarFwds(x) => EDGE * |Forwards(d, x, |d.models|)|
    case ModelIn(m) => SHEDGE * |d.models[m].checks| + EDGE * |d.models[m].params|
    case ModelOut(m) => EDGE * |d.models[m].rets|
  }

  /** What `fhk_graph_size` reserves for the edges of the first `i` models. */
  function EdgeBytes(d: Def, i: nat): nat
    requires i <= |d.models|
  {
    if i == 0 then 0
    else EdgeBytes(d,
        i - 1) + SHEDGE * |d.models[i - 1].checks| + EDGE * (2 * (|d.models[i - 1].params| + |d.models[i - 1].rets|))
  }

  // ---------- every definition edge counts once for its variable and once for its model ----------

  /** Forward edges of the first `n` variables that come from the first `j` parameters of model `i`. */
  function FwdsFrom(d: Def, n: nat, i: nat, j: nat): nat
    requires i < |d.models| && j <= |d.models[i].params|
  {
    if n == 0 then 0 else FwdsFrom(d, n - 1, i, j) + |ForwardsIn(d, n - 1, i, j)|
  }

  lemma {:induction false} FwdsNext(d: Def, n: nat, i: nat, j: nat)
    requires i < |d.models| && j < |d.models[i].params|
    ensures FwdsFrom(d, n, i, j + 1) == FwdsFrom(d, n, i, j) + (if d.models[i].params[j].idx < n then 1 else 0)
  {
    if n > 0 {
      FwdsNext(d, n - 1, i, j);
    }
  }

  lemma EdgeInRange(d: Def, i: nat)
    requires DefOk(d) && i < |d.models|
    ensures forall j :: 0 <= j < |d.models[i].params| ==> d.models[i].params[j].idx < |d.groups|
    ensures forall j :: 0 <= j < |d.models[i].rets| ==> d.models[i].rets[j].idx < |d.groups|
  {
  }

  lemma {:induction false} FwdsOfModel(d: Def, i: nat, j: nat)
    requires DefOk(d) && i < |d.models| && j <= |d.models[i].params|
    ensures FwdsFrom(d, |d.groups|, i, j) == j
  {
    hide DefOk, FwdsFrom;
    if j == 0 {
      NoFwds(d, |d.groups|, i);
    } else {
      EdgeInRange(d, i);
      FwdsOfModel(d, i, j - 1);
      FwdsNext(d, |d.groups|, i, j - 1);
    }
  }

  lemma {:induction false} NoFwds(d: Def, n: nat, i: nat)
    requires i < |d.models|
    ensures FwdsFrom(d, n, i, 0) == 0
  {
    if n > 0 {
      NoFwds(d, n - 1, i);
    }
  }

  function BacksFrom(d: Def, n: nat, i: nat, j: nat): nat
    requires i < |d.models| && j <= |d.models[i].rets|
  {
    if n == 0 then 0 else BacksFrom(d, n - 1, i, j) + |BackwardsIn(d, n - 1, i, j)|
  }

  lemma {:induction false} BacksNext(d: Def, n: nat, i: nat, j: nat)
    requires i < |d.models| && j < |d.models[i].rets|
    ensures BacksFrom(d, n, i, j + 1) == BacksFrom(d, n, i, j) + (if d.models[i].rets[j].idx < n then 1 else 0)
  {
    if n > 0 {
      BacksNext(d, n - 1, i, j);
    }
  }

  lemma {:induction false} BacksOfModel(d: Def, i: nat, j: nat)
    requires DefOk(d) && i < |d.models| && j <= |d.models[i].rets|
    ensures BacksFrom(d, |d.groups|, i, j) == j
  {
    hide DefOk, BacksFrom;
    if j == 0 {
      NoBacks(d, |d.groups|, i);
    } else {
      EdgeInRange(d, i);
      BacksOfModel(d, i, j - 1);
      BacksNext(d, |d.groups|, i, j - 1);
    }
  }

  lemma {:induction false} NoBacks(d: Def, n: nat, i: nat)
    requires i < |d.models|
    ensures BacksFrom(d, n, i, 0) == 0
  {
    if n > 0 {
      NoBacks(d, n - 1, i);
    }
  }

  /** Edges of both directions of the first `n` variables, from the first `i` models. */
  function VarEdges(d: Def, n: nat, i: nat): nat
    requires i <= |d.models|
  {
    if n == 0 then 0 else VarEdges(d, n - 1, i) + |Forwards(d, n - 1, i)| + |Backwards(d, n - 1, i)|
  }

  lemma {:induction false} VarEdgesNext(d: Def, n: nat, i: nat)
    requires i < |d.models|
    ensures VarEdges(d, n, i + 1) ==
      VarEdges(d, n, i) + FwdsFrom(d, n, i, |d.models[i].params|) + BacksFrom(d, n, i, |d.models[i].rets|)
  {
    hide Forwards, Backwards, ForwardsIn, BackwardsIn;
    if n > 0 {
      VarEdgesNext(d, n - 1, i);
      EdgesNext(d, n - 1, i);
    }
  }

  lemma EdgesNext(d: Def, x: nat, i: nat)
    requires i < |d.models|
    ensures |Forwards(d, x, i + 1)| == |Forwards(d, x, i)| + |ForwardsIn(d, x, i, |d.models[i].params|)|
    ensures |Backwards(d, x, i + 1)| == |Backwards(d, x, i)| + |BackwardsIn(d, x, i, |d.models[i].rets|)|
  {
    hide ForwardsIn, BackwardsIn;
  }

  /** Parameters and returns of the first `i` models. */
  function ModelEdges(d: Def, i: nat): nat
    requires i <= |d.models|
  {
    if i == 0 then 0 else ModelEdges(d, i - 1) + |d.models[i - 1].params| + |d.models[i - 1].rets|
  }

  /** Variables and models have the same number of edges between them. */
  lemma {:induction false} EdgesBalance(d: Def, i: nat)
    requires DefOk(d) && i <= |d.models|
    ensures VarEdges(d, |d.groups|, i) == ModelEdges(d, i)
  {
    hide DefOk, VarEdges, FwdsFrom, BacksFrom;
    if i == 0 {
      NoVarEdges(d, |d.groups|);
    } else {
      EdgesBalance(d, i - 1);
      VarEdgesNext(d, |d.groups|, i - 1);
      FwdsOfModel(d, i - 1, |d.models[i - 1].params|);
      BacksOfModel(d, i - 1, |d.models[i - 1].rets|);
    }
  }

  lemma {:induction false} NoVarEdges(d: Def, n: nat)
    ensures VarEdges(d, n, 0) == 0
  {
    if n > 0 {
      NoVarEdges(d, n - 1);
    }
  }

  // ---------- the space that blocks take ----------

  function SizeIn(d: Def, done: set<Slot>, t: Slot): nat
    requires IsSlot(d, t)
  {
    if t in done then SizeOf(d, t) else 0
  }

  /** Bytes of the blocks in `done` that belong to the first `n` variables. */
  function VarBytes(d: Def, done: set<Slot>, n: nat): nat
    requires n <= |d.groups|
  {
    if n == 0 then 0 else VarBytes(d, done, n - 1) + SizeIn(d, done, VarModels(n - 1)) + SizeIn(d, done, VarFwds(n - 1))
  }

  function ModelBytes(d: Def, done: set<Slot>, n: nat): nat
    requires n <= |d.models|
  {
    if n == 0 then 0
        else ModelBytes(d, done, n - 1) + SizeIn(d, done, ModelIn(n - 1)) + SizeIn(d, done, ModelOut(n - 1))
  }

  function Bytes(d: Def, done: set<Slot>): nat {
    VarBytes(d, done, |d.groups|) + ModelBytes(d, done, |d.models|)
  }

  lemma {:induction false} VarBytesMore(d: Def, done: set<Slot>, t: Slot, n: nat)
    requires n <= |d.groups| && IsSlot(d, t) && t !in done
    ensures VarBytes(d, done + {t}, n) ==
        VarBytes(d, done, n) + (if (t.VarModels? || t.VarFwds?) && t.x < n then SizeOf(d, t) else 0)
  {
    hide SizeOf;
    if n > 0 {
      VarBytesMore(d, done, t, n - 1);
    }
  }

  lemma {:induction false} ModelBytesMore(d: Def, done: set<Slot>, t: Slot, n: nat)
    requires n <= |d.models| && IsSlot(d, t) && t !in done
    ensures ModelBytes(d, done + {t}, n) ==
        ModelBytes(d, done, n) + (if (t.ModelIn? || t.ModelOut?) && t.m < n then SizeOf(d, t) else 0)
  {
    hide SizeOf;
    if n > 0 {
      ModelBytesMore(d, done, t, n - 1);
    }
  }

  lemma BytesMore(d: Def, done: set<Slot>, t: Slot)
    requires IsSlot(d, t) && t !in done
    ensures Bytes(d, done + {t}) == Bytes(d, done) + SizeOf(d, t)
  {
    hide SizeOf;
    VarBytesMore(d, done, t, |d.groups|);
    ModelBytesMore(d, done, t, |d.models|);
  }

  lemma {:induction false} NoVarBytes(d: Def, n: nat)
    requires n <= |d.groups|
    ensures VarBytes(d, {}, n) == 0
  {
    if n > 0 {
      NoVarBytes(d, n - 1);
    }
  }

  lemma {:induction false} NoModelBytes(d: Def, n: nat)
    requires n <= |d.models|
    ensures ModelBytes(d, {}, n) == 0
  {
    if n > 0 {
      NoModelBytes(d, n - 1);
    }
  }

  lemma {:induction false} AllVarBytes(d: Def, done: set<Slot>, n: nat)
    requires n <= |d.groups| && forall t :: IsSlot(d, t) ==> t in done
    ensures VarBytes(d, done, n) == EDGE * VarEdges(d, n, |d.models|)
  {
    if n > 0 {
      AllVarBytes(d, done, n - 1);
      assert IsSlot(d, VarModels(n - 1)) && IsSlot(d, VarFwds(n - 1));
    }
  }

  lemma {:induction false} AllModelBytes(d: Def, done: set<Slot>, n: nat)
    requires n <= |d.models| && forall t :: IsSlot(d, t) ==> t in done
    ensures ModelBytes(d, done, n) + EDGE * ModelEdges(d, n) == EdgeBytes(d, n)
  {
    if n > 0 {
      AllModelBytes(d, done, n - 1);
      assert IsSlot(d, ModelIn(n - 1)) && IsSlot(d, ModelOut(n - 1));
    }
  }

  /** All blocks take exactly the space that `fhk_graph_size` reserves for edges. */
  lemma AllBytes(d: Def, done: set<Slot>)
    requires DefOk(d) && forall t :: IsSlot(d, t) ==> t in done
    ensures Bytes(d, done) == EdgeBytes(d, |d.models|)
  {
    hide DefOk, VarBytes, ModelBytes, VarEdges, ModelEdges, EdgeBytes, IsSlot;
    AllVarBytes(d, done, |d.groups|);
    AllModelBytes(d, done, |d.models|);
    EdgesBalance(d, |d.models|);
  }

  /** The space serves as scratch before: the variables' edges fit into it, one after the other. */
  lemma ScratchFits(d: Def)
    requires DefOk(d)
    ensures EDGE * VarEdges(d, |d.groups|, |d.models|) <= EdgeBytes(d, |d.models|)
  {
    hide DefOk;
    EdgesBalance(d, |d.models|);
    ModelEdgesFit(d, |d.models|);
  }

  lemma {:induction false} ModelEdgesFit(d: Def, i: nat)
    requires i <= |d.models|
    ensures EDGE * ModelEdges(d, i) <= EdgeBytes(d, i)
  {
    if i > 0 {
      ModelEdgesFit(d, i - 1);
    }
  }

  // ---------- handing out blocks ----------

  predicate Apart(d: Def, at: map<Slot, nat>, s: Slot, t: Slot)
    requires s in at && t in at && IsSlot(d, s) && IsSlot(d, t)
  {
    at[s] + SizeOf(d, s) <= at[t] || at[t] + SizeOf(d, t) <= at[s]
  }

  /** The blocks handed out so far fill the space from `base` to `p`, without overlaps. */
  ghost predicate Laid(d: Def, base: nat, at: map<Slot, nat>, p: nat) {
    && (forall s :: s in at ==> IsSlot(d, s) && base <= at[s] && at[s] + SizeOf(d, s) <= p)
    && (forall s, t :: s in at && t in at && s != t ==> Apart(d, at, s, t))
    && p == base + Bytes(d, at.Keys) && p % 4 == 0
  }

  lemma NoneLaid(d: Def, base: nat)
    requires base % 4 == 0
    ensures Laid(d, base, map[], base)
  {
    NoVarBytes(d, |d.groups|);
    NoModelBytes(d, |d.models|);
    var none: map<Slot, nat> := map[];
    assert none.Keys == {};
  }

  lemma MoreLaid(d: Def, base: nat, at: map<Slot, nat>, p: nat, t: Slot)
    requires Laid(d, base, at, p) && IsSlot(d, t) && t !in at
    ensures Laid(d, base, at[t := p], p + SizeOf(d, t))
  {
    hide SizeOf, Bytes, IsSlot, Apart;
    SizeAligned(d, t);
    BytesMore(d, at.Keys, t);
    var at' := at[t := p];
    assert at'.Keys == at.Keys + {t};
    forall s, u | s in at' && u in at' && s != u
      ensures Apart(d, at', s, u)
    {
      MoreApart(d, base, at, p, t, s, u);
    }
  }

  lemma MoreApart(d: Def, base: nat, at: map<Slot, nat>, p: nat, t: Slot, s: Slot, u: Slot)
    requires Laid(d, base, at, p) && IsSlot(d, t) && t !in at && s in at[t := p] && u in at[t := p] && s != u
    ensures IsSlot(d, s) && IsSlot(d, u) && Apart(d, at[t := p], s, u)
  {
    hide SizeOf, Bytes, IsSlot;
    if s != t && u != t {
      assert Apart(d, at, s, u);
    }
  }

  lemma SizeAligned(d: Def, t: Slot)
    requires IsSlot(d, t)
    ensures SizeOf(d, t) % 4 == 0
  {
  }

  /** The next block goes where the last one ended; aligning for checks moves nothing. */
  method Place(d: Def, ghost base: nat, at: map<Slot, nat>, p: nat, t: Slot) returns (at': map<Slot, nat>, p': nat)
    requires Laid(d, base, at, p) && IsSlot(d, t) && t !in at
    ensures Laid(d, base, at', p') && at' == at[t := p]
  {
    hide Laid, SizeOf, IsSlot;
    MoreLaid(d, base, at, p, t);
    LaidAligned(d, base, at, p);
    var q := p;
    if t.ModelIn? {
      q := AlignUp(p, 4);
    }
    at', p' := at[t := q], q + SizeOf(d, t);
  }

  lemma LaidAligned(d: Def, base: nat, at: map<Slot, nat>, p: nat)
    requires Laid(d, base, at, p)
    ensures AlignUp(p, 4) == p
  {
  }

  /** Blocks that are new are the one given, or of a kind. */
  ghost predicate Keeps(a: map<Slot, nat>, b: map<Slot, nat>) {
    forall s :: s in a ==> s in b && b[s] == a[s]
  }

  /** Model edges of a variable, and the blocks of models met there for the first time. */
  method PlaceModels(d: Def, ghost base: nat, at0: map<Slot, nat>, p0: nat, x: nat) returns (at: map<Slot, nat>, p: nat)
    requires Laid(d, base, at0, p0) && x < |d.groups| && VarModels(x) !in at0
    ensures Laid(d, base, at, p) && Keeps(at0, at) && VarModels(x) in at && at[VarModels(x)] == p0
    ensures forall s :: s in at ==> s in at0 || s == VarModels(x) || s.ModelIn?
  {
    hide Laid, Backwards;
    at, p := Place(d, base, at0, p0, VarModels(x));
    var es := Backwards(d, x, |d.models|);
    for j := 0 to |es|
      invariant Laid(d, base, at, p) && Keeps(at0, at) && VarModels(x) in at && at[VarModels(x)] == p0
      invariant forall s :: s in at ==> s in at0 || s == VarModels(x) || s.ModelIn?
    {
      BackwardsAre(d, x, |d.models|, es[j]);
      if ModelIn(es[j].idx) !in at {
        at, p := Place(d, base, at, p, ModelIn(es[j].idx));
      }
    }
  }

  /** Forward edges of a variable, and the returns of models met there for the first time. */
  method PlaceFwds(d: Def, ghost base: nat, at0: map<Slot, nat>, p0: nat, x: nat) returns (at: map<Slot, nat>, p: nat)
    requires Laid(d, base, at0, p0) && x < |d.groups| && VarFwds(x) !in at0
    ensures Laid(d, base, at, p) && Keeps(at0, at) && VarFwds(x) in at && at[VarFwds(x)] == p0
    ensures forall s :: s in at ==> s in at0 || s == VarFwds(x) || s.ModelOut?
  {
    hide Laid, Forwards;
    at, p := Place(d, base, at0, p0, VarFwds(x));
    var es := Forwards(d, x, |d.models|);
    for j := 0 to |es|
      invariant Laid(d, base, at, p) && Keeps(at0, at) && VarFwds(x) in at && at[VarFwds(x)] == p0
      invariant forall s :: s in at ==> s in at0 || s == VarFwds(x) || s.ModelOut?
    {
      ForwardsInRange(d, x, |d.models|);
      if ModelOut(es[j].idx) !in at {
        at, p := Place(d, base, at, p, ModelOut(es[j].idx));
      }
    }
  }

  /** The blocks of models that no variable has met. */
  method PlaceRest(d: Def, ghost base: nat, at0: map<Slot, nat>, p0: nat) returns (at: map<Slot, nat>, p: nat)
    requires Laid(d, base, at0, p0)
    ensures Laid(d, base, at, p) && Keeps(at0, at)
    ensures forall m: nat :: m < |d.models| ==> ModelIn(m) in at && ModelOut(m) in at
  {
    hide Laid;
    at, p := at0, p0;
    for m := 0 to |d.models|
      invariant Laid(d, base, at, p) && Keeps(at0, at)
      invariant forall l: nat :: l < m ==> ModelIn(l) in at && ModelOut(l) in at
    {
      if ModelIn(m) !in at {
        at, p := Place(d, base, at, p, ModelIn(m));
      }
      if ModelOut(m) !in at {
        at, p := Place(d, base, at, p, ModelOut(m));
      }
    }
  }

  /** The pointers of `g_build_edges`: every block is handed out once, no two overlap, and together they fill exactly
      the space reserved for edges. */
  method Assign(d: Def, base: nat) returns (at: map<Slot, nat>, p: nat)
    requires DefOk(d) && base % 4 == 0
    ensures Laid(d, base, at, p) && (forall s :: IsSlot(d, s) <==> s in at) && p == base + EdgeBytes(d, |d.models|)
  {
    hide DefOk, Laid, Bytes, SizeOf, EdgeBytes, Backwards, Forwards;
    NoneLaid(d, base);
    at, p := map[], base;
    for x := 0 to |d.groups|
      invariant Laid(d, base, at, p) && forall s :: s in at ==> (s.VarModels? && s.x < x) || s.ModelIn?
      invariant forall y: nat :: y < x ==> VarModels(y) in at
    {
      at, p := PlaceModels(d, base, at, p, x);
    }
    for x := 0 to |d.groups|
      invariant Laid(d, base, at, p) && forall s :: s in at && s.VarFwds? ==> s.x < x
      invariant (forall y: nat :: y < |d.groups| ==> VarModels(y) in at) && forall y: nat :: y < x ==> VarFwds(y) in at
    {
      at, p := PlaceFwds(d, base, at, p, x);
    }
    at, p := PlaceRest(d, base, at, p);
    forall s
      ensures IsSlot(d, s) <==> s in at
    {
      LaidSlots(d, base, at, p);
    }
    AllBytes(d, at.Keys);
    LaidBytes(d, base, at, p);
  }

  lemma LaidSlots(d: Def, base: nat, at: map<Slot, nat>, p: nat)
    requires Laid(d, base, at, p)
    ensures forall s :: s in at ==> IsSlot(d, s)
  {
  }

  lemma LaidBytes(d: Def, base: nat, at: map<Slot, nat>, p: nat)
    requires Laid(d, base, at, p)
    ensures p == base + Bytes(d, at.Keys)
  {
  }

  // ---------- the blocks hold the graph ----------

  /** What the edges of the built graph take: four bytes each, and eight for a check. */
  function Needs(g: Graph, s: Slot): nat {
    match s
    case VarModels(x) => if x < |g.vars| then 4 * |g.vars[x].models| else 0
    case VarFwds(x) => if x < |g.vars| then 4 * |g.vars[x].fwds| else 0
    case ModelIn(m) => if m < |g.models| then 8 * |g.models[m].checks| + 4 * |g.models[m].params| else 0
    case ModelOut(m) => if m < |g.models| then 4 * |g.models[m].rets| else 0
  }

  lemma NeedsIs(d: Def, g: Graph, s: Slot)
    requires DefOk(d) && Built(d, g) && IsSlot(d, s)
    ensures Needs(g, s) == SizeOf(d, s)
  {
    hide DefOk, Backwards, Forwards;
    if s.ModelIn? {
      assert BuiltModel(d, g, s.m);
      var a, b := d.models[s.m], g.models[s.m];
      assert |multiset(b.params)| == |b.params| == |multiset(ParamEdges(d, s.m, |a.params|))|;
      assert |multiset(b.checks)| == |b.checks| == |multiset(CheckEdges(d, s.m))|;
    } else if s.ModelOut? {
      assert BuiltModel(d, g, s.m);
    }
  }

  /** Each block has room for exactly the edges of its variable or model. */
  lemma BlocksHold(d: Def, g: Graph, base: nat, at: map<Slot, nat>, p: nat)
    requires DefOk(d) && Built(d, g) && Laid(d, base, at, p)
    ensures forall s :: s in at ==> base <= at[s] && at[s] + Needs(g, s) <= p
    ensures forall s, t :: s in at && t in at && s != t ==>
        at[s] + Needs(g, s) <= at[t] || at[t] + Needs(g, t) <= at[s]
  {
    hide DefOk, Built, Needs, SizeOf, Bytes, IsSlot;
    forall s | s in at
      ensures IsSlot(d, s) && Needs(g, s) == SizeOf(d, s)
    {
      NeedsIs(d, g, s);
    }
    forall s, t | s in at && t in at && s != t
      ensures at[s] + Needs(g, s) <= at[t] || at[t] + Needs(g, t) <= at[s]
    {
      assert Apart(d, at, s, t);
    }
  }
}
