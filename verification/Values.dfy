/** Values along the chosen chains: what `S_compute_value` has to produce. */
module Values {
  import opened Costs
  import opened Graphs
  import opened SolverState

  // ---------- edges as the graph builder leaves them ----------

  function RetInsts(p: Problem, m: Ref, r: nat): seq<nat>
    requires IsModel(p, m) && r < |ModelOf(p, m).rets|
  {
    Insts(p, ModelOf(p, m).rets[r].via, m.inst)
  }

  /** `ex` permutes the parameters back to the order the model expects; a candidate's return edge leads back
      to the variable instance; models return one value per instance of every return edge. */
  ghost predicate EdgesOk(p: Problem) {
    && (forall m: Ref, e: nat :: IsModel(p, m) && e < |ModelOf(p, m).params| ==>
        ModelOf(p, m).params[e].ex < |ModelOf(p, m).params|)
    && (forall m: Ref, k: nat, e: nat, d: nat :: IsExOf(p, m, k, e) && IsExOf(p, m, k, d) ==> e == d)
    && (forall m: Ref, k: nat :: IsModel(p, m) && k < |ModelOf(p, m).params| ==> HasEx(p, m, k))
    && (forall x: Ref, ei: nat, i: nat :: IsCand(p, x, ei, i) ==> ReturnsTo(p, x, ei, CandRef(p, x, ei, i)))
    && (forall m: Ref, args: seq<seq<Value>> :: IsModel(p, m) ==> RetShape(p, m, p.call(m, args)))
  }

  predicate IsExOf(p: Problem, m: Ref, k: nat, e: nat) {
    IsModel(p, m) && e < |ModelOf(p, m).params| && ModelOf(p, m).params[e].ex == k
  }

  ghost predicate HasEx(p: Problem, m: Ref, k: nat) {
    exists e: nat :: IsExOf(p, m, k, e)
  }

  predicate ReturnsTo(p: Problem, x: Ref, ei: nat, m: Ref) {
    && IsVar(p, x) && ei < NumEdges(p, x) && IsModel(p, m)
    && var r := p.g.vars[x.idx].models[ei].ex;
       r < |ModelOf(p, m).rets| && ModelOf(p, m).rets[r].idx == x.idx && x.inst in RetInsts(p, m, r)
  }

  predicate RetShape(p: Problem, m: Ref, out: seq<seq<Value>>)
    requires IsModel(p, m)
  {
    |out| == |ModelOf(p, m).rets| && forall r :: 0 <= r < |out| ==> |out[r]| == |RetInsts(p, m, r)|
  }

  /** `mapE_indexof`: position of an instance in a subset. */
  function IndexOf(s: seq<nat>, v: nat): (i: nat)
    requires v in s
    ensures i < |s| && s[i] == v
  {
    if s[0] == v then 0 else 1 + IndexOf(s[1..], v)
  }

  /** The value that a model's results hold for the variable instance `x`. */
  function Pick(p: Problem, x: Ref, ei: nat, m: Ref, out: seq<seq<Value>>): Value
    requires ReturnsTo(p, x, ei, m) && RetShape(p, m, out)
  {
    var r := p.g.vars[x.idx].models[ei].ex;
    out[r][IndexOf(RetInsts(p, m, r), x.inst)]
  }

  // ---------- the chain relation is acyclic ----------

  type Stamps = map<Ref, nat>

  predicate HasChain(mm: ModMap, m: Ref) {
    m in mm && mm[m].chain
  }

  /** A chain leads to a candidate that has a chain, too. */
  ghost predicate ChainLink(p: Problem, v: VarMap, mm: ModMap, x: Ref) {
    && IsVar(p, x) && Chained(v, x) && v[x].st.ei < NumEdges(p, x)
    && IsModel(p, ChainModel(p, x, v[x].st)) && HasChain(mm, ChainModel(p, x, v[x].st))
    && ReturnsTo(p, x, v[x].st.ei, ChainModel(p, x, v[x].st))
  }

  /** The order in which models got their chains: parameters first. */
  ghost predicate StampsOk(p: Problem, v: VarMap, mm: ModMap, stamp: Stamps) {
    && WellFormed(p) && EdgesOk(p)
    && (forall x: Ref :: IsVar(p, x) && Chained(v, x) ==> ChainLink(p, v, mm, x))
    && (forall m: Ref :: IsModel(p, m) && HasChain(mm, m) ==> m in stamp)
    && (forall m: Ref, e: nat, i: nat ::
        IsModel(p, m) && HasChain(mm, m) && IsParam(p, m, e, i) && e < ModelOf(p, m).cparam ==>
        EarlierParam(p, v, mm, stamp, m, ParamRef(p, m, e, i)))
  }

  ghost predicate EarlierParam(p: Problem, v: VarMap, mm: ModMap, stamp: Stamps, m: Ref, x: Ref) {
    && ChainLink(p, v, mm, x) && m in stamp && ChainModel(p, x, v[x].st) in stamp
    && stamp[ChainModel(p, x, v[x].st)] < stamp[m]
  }

  /** A given or chained variable instance. */
  predicate Known(p: Problem, v: VarMap, x: Ref) {
    IsVar(p, x) && (Given(p.g, x.idx) || Chained(v, x))
  }

  lemma KnownNotStuck(p: Problem, v: VarMap, x: Ref)
    requires Known(p, v, x)
    ensures !Stuck(p, v, x)
  {
  }

  lemma ParamKnown(p: Problem, v: VarMap, mm: ModMap, stamp: Stamps, m: Ref, e: nat, i: nat)
    requires StampsOk(p, v, mm, stamp) && IsModel(p, m) && HasChain(mm, m) && IsParam(p, m, e, i)
    ensures Known(p, v, ParamRef(p, m, e, i)) && m in stamp
    ensures !Given(p.g, ParamRef(p, m, e, i).idx) ==>
        e < ModelOf(p, m).cparam && EarlierParam(p, v, mm, stamp, m, ParamRef(p, m, e, i))
  {
  }

  // ---------- evaluation ----------

  /** The parameter edge that supplies argument `k`. */
  ghost function ParamAt(p: Problem, m: Ref, k: nat): (e: nat)
    requires EdgesOk(p) && IsModel(p, m) && k < |ModelOf(p, m).params|
    ensures IsExOf(p, m, k, e)
  {
    assert HasEx(p, m, k);
    var e: nat :| IsExOf(p, m, k, e);
    e
  }

  /** The value of a variable instance: computed by its chain's model from its parameters' values. */
  ghost function Eval(p: Problem, v: VarMap, mm: ModMap, stamp: Stamps, x: Ref): Value
    requires StampsOk(p, v, mm, stamp) && Known(p, v, x)
    decreases if Given(p.g, x.idx) then 0 else stamp[ChainModel(p, x, v[x].st)], if Given(p.g, x.idx) then 0 else 4
  {
    if Given(p.g, x.idx) then p.given(x)
    else
      var m := ChainModel(p, x, v[x].st);
      Pick(p, x, v[x].st.ei, m, Outs(p, v, mm, stamp, m))
  }

  /** What a model instance with a chain returns. */
  ghost function Outs(p: Problem, v: VarMap, mm: ModMap, stamp: Stamps, m: Ref): (out: seq<seq<Value>>)
    requires StampsOk(p, v, mm, stamp) && IsModel(p, m) && HasChain(mm, m)
    ensures RetShape(p, m, out)
    decreases stamp[m], 3
  {
    p.call(m, Args(p, v, mm, stamp, m))
  }

  /** Its arguments, in the order the model expects. */
  ghost function Args(p: Problem, v: VarMap, mm: ModMap, stamp: Stamps, m: Ref): (args: seq<seq<Value>>)
    requires StampsOk(p, v, mm, stamp) && IsModel(p, m) && HasChain(mm, m)
    ensures |args| == |ModelOf(p, m).params|
    decreases stamp[m], 2
  {
    seq(|ModelOf(p, m).params|, (k: int) requires 0 <= k < |ModelOf(p, m).params| =>
      Arg(p, v, mm, stamp, m, ParamAt(p, m, k)))
  }

  /** The argument that parameter edge `e` supplies. */
  ghost function Arg(p: Problem, v: VarMap, mm: ModMap, stamp: Stamps, m: Ref, e: nat): (arg: seq<Value>)
    requires StampsOk(p, v, mm, stamp) && IsModel(p, m) && HasChain(mm, m) && e < |ModelOf(p, m).params|
    ensures |arg| == |ParamInsts(p, m, e)|
    decreases stamp[m], 1
  {
    seq(|ParamInsts(p, m, e)|, (i: int) requires 0 <= i < |ParamInsts(p, m, e)| =>
      (ParamKnown(p, v, mm, stamp, m, e, i); Eval(p, v, mm, stamp, ParamRef(p, m, e, i))))
  }

  // ---------- evaluation does not depend on later chains ----------

  ghost predicate ChainsKept(mm: ModMap, nn: ModMap) {
    forall m :: HasChain(mm, m) ==> HasChain(nn, m)
  }

  /** A later state of the chains. */
  ghost predicate Later(p: Problem, v: VarMap, mm: ModMap, st: Stamps, w: VarMap, nn: ModMap, su: Stamps) {
    StampsOk(p, v, mm, st) && StampsOk(p, w, nn, su) && Extends(v, w) && ChainsKept(mm, nn)
  }

  lemma {:induction false} EvalStable(p: Problem, v: VarMap, mm: ModMap, st: Stamps, w: VarMap, nn: ModMap, su: Stamps,
      x: Ref)
    requires Later(p, v, mm, st, w, nn, su) && Known(p, v, x)
    ensures Known(p, w, x) && Eval(p, v, mm, st, x) == Eval(p, w, nn, su, x)
    decreases if Given(p.g, x.idx) then 0 else st[ChainModel(p, x, v[x].st)], if Given(p.g, x.idx) then 0 else 4
  {
    if !Given(p.g, x.idx) {
      assert ChainLink(p, v, mm, x) && ChainLink(p, w, nn, x);
      OutsStable(p, v, mm, st, w, nn, su, ChainModel(p, x, v[x].st));
    }
  }

  lemma {:induction false} OutsStable(p: Problem, v: VarMap, mm: ModMap, st: Stamps, w: VarMap, nn: ModMap, su: Stamps,
      m: Ref)
    requires Later(p, v, mm, st, w, nn, su) && IsModel(p, m) && HasChain(mm, m)
    ensures HasChain(nn, m) && Outs(p, v, mm, st, m) == Outs(p, w, nn, su, m)
    decreases st[m], 3
  {
    var a, b := Args(p, v, mm, st, m), Args(p, w, nn, su, m);
    forall k | 0 <= k < |a|
      ensures a[k] == b[k]
    {
      ArgStable(p, v, mm, st, w, nn, su, m, ParamAt(p, m, k));
    }
    assert a == b;
  }

  lemma {:induction false} ArgStable(p: Problem, v: VarMap, mm: ModMap, st: Stamps, w: VarMap, nn: ModMap, su: Stamps,
      m: Ref, e: nat)
    requires Later(p, v, mm, st, w, nn, su) && IsModel(p, m) && HasChain(mm, m) && e < |ModelOf(p, m).params|
    ensures HasChain(nn, m) && Arg(p, v, mm, st, m, e) == Arg(p, w, nn, su, m, e)
    decreases st[m], 1
  {
    var a, b := Arg(p, v, mm, st, m, e), Arg(p, w, nn, su, m, e);
    forall i | 0 <= i < |a|
      ensures a[i] == b[i]
    {
      ParamKnown(p, v, mm, st, m, e, i);
      ParamKnown(p, w, nn, su, m, e, i);
      EvalStable(p, v, mm, st, w, nn, su, ParamRef(p, m, e, i));
    }
    assert a == b;
  }

  // ---------- the value state ----------

  /** Value flags of variables and models, values, model results and the log of model calls. */
  datatype Store = Store(have: set<Ref>, mval: set<Ref>, val: map<Ref, Value>, out: map<Ref, seq<seq<Value>>>,
      log: seq<Ref>)

  /** The computation of the variables `act` and models `actM` has begun but not ended. */
  ghost predicate ValuesOk(p: Problem, v: VarMap, mm: ModMap, stamp: Stamps, r: Store, act: set<Ref>, actM: set<Ref>) {
    && StampsOk(p, v, mm, stamp) && act <= r.have
    && (forall x :: x in r.have ==> Known(p, v, x) && ValueOk(p, v, mm, stamp, r, act, actM, x))
    && (forall m :: m in r.mval ==> IsModel(p, m) && HasChain(mm, m))
    && (forall m :: m in r.out ==> m in r.mval && m !in actM && r.out[m] == Outs(p, v, mm, stamp, m))
    && (forall m :: m in r.mval && m !in actM ==> m in r.out)
    && LogOk(p, v, r)
  }

  ghost predicate ValueOk(p: Problem, v: VarMap, mm: ModMap, stamp: Stamps, r: Store, act: set<Ref>, actM: set<Ref>,
      x: Ref)
    requires StampsOk(p, v, mm, stamp) && Known(p, v, x)
  {
    && (x in act ==> !Given(p.g, x.idx) && ChainModel(p, x, v[x].st) in actM)
    && (x !in act ==> x in r.val && r.val[x] == Eval(p, v, mm, stamp, x))
    && (x !in act && !Given(p.g, x.idx) ==> ChainModel(p, x, v[x].st) in r.out)
  }

  /** Every model instance is called at most once, and after the models of all its computed parameters. */
  ghost predicate LogOk(p: Problem, v: VarMap, r: Store) {
    && (forall m :: m in r.log <==> m in r.out)
    && (forall j, k :: 0 <= j < k < |r.log| ==> r.log[j] != r.log[k])
    && (forall k :: 0 <= k < |r.log| ==> CalledAfterParams(p, v, r.log[k], r.log[..k]))
  }

  ghost predicate CalledAfterParams(p: Problem, v: VarMap, m: Ref, earlier: seq<Ref>) {
    IsModel(p, m) &&
    forall e: nat, i: nat :: e < ModelOf(p, m).cparam && IsParam(p, m, e, i) ==>
        ChainIn(p, v, ParamRef(p, m, e, i), earlier)
  }

  predicate ChainIn(p: Problem, v: VarMap, x: Ref, ms: seq<Ref>) {
    IsVar(p, x) && Chained(v, x) && v[x].st.ei < NumEdges(p, x) && ChainModel(p, x, v[x].st) in ms
  }

  /** Values survive the discovery of further chains. */
  lemma ValuesKept(p: Problem, v: VarMap, mm: ModMap, st: Stamps, w: VarMap, nn: ModMap, su: Stamps, r: Store)
    requires Later(p, v, mm, st, w, nn, su) && ValuesOk(p, v, mm, st, r, {}, {})
    ensures ValuesOk(p, w, nn, su, r, {}, {})
  {
    forall x | x in r.have
      ensures Known(p, w, x) && ValueOk(p, w, nn, su, r, {}, {}, x)
    {
      EvalStable(p, v, mm, st, w, nn, su, x);
    }
    forall m | m in r.out
      ensures HasChain(nn, m) && r.out[m] == Outs(p, w, nn, su, m)
    {
      OutsStable(p, v, mm, st, w, nn, su, m);
    }
    forall k | 0 <= k < |r.log|
      ensures CalledAfterParams(p, w, r.log[k], r.log[..k])
    {
      assert CalledAfterParams(p, v, r.log[k], r.log[..k]);
    }
  }

  // ---------- steps of the solver ----------

  /** A change of a variable that has no chain, or of an unchained model's bound. */
  lemma NoNewChain(p: Problem, v: VarMap, mm: ModMap, st: Stamps, w: VarMap, nn: ModMap)
    requires StampsOk(p, v, mm, st) && Extends(v, w)
    requires forall x :: Chained(w, x) ==> Chained(v, x)
    requires forall m :: HasChain(mm, m) <==> HasChain(nn, m)
    ensures Later(p, v, mm, st, w, nn, st)
  {
    forall x: Ref | IsVar(p, x) && Chained(w, x)
      ensures ChainLink(p, w, nn, x)
    {
      assert ChainLink(p, v, mm, x);
    }
    forall m: Ref, e: nat, i: nat | IsModel(p, m) && HasChain(nn, m) && IsParam(p, m, e, i) && e < ModelOf(p, m).cparam
      ensures EarlierParam(p, w, nn, st, m, ParamRef(p, m, e, i))
    {
      assert EarlierParam(p, v, mm, st, m, ParamRef(p, m, e, i));
    }
  }

  lemma NewVarChain(p: Problem, v: VarMap, mm: ModMap, st: Stamps, x: Ref, sp: VarSp)
    requires StampsOk(p, v, mm, st) && !Chained(v, x) && ChainLink(p, v[x := sp], mm, x)
    ensures Later(p, v, mm, st, v[x := sp], mm, st)
  {
    var w := v[x := sp];
    forall y: Ref | IsVar(p, y) && Chained(w, y)
      ensures ChainLink(p, w, mm, y)
    {
      assert y != x ==> ChainLink(p, v, mm, y);
    }
    forall m: Ref, e: nat, i: nat | IsModel(p, m) && HasChain(mm, m) && IsParam(p, m, e, i) && e < ModelOf(p, m).cparam
      ensures EarlierParam(p, w, mm, st, m, ParamRef(p, m, e, i))
    {
      assert EarlierParam(p, v, mm, st, m, ParamRef(p, m, e, i));
    }
  }

  lemma {:induction false} FreshStamp(st: Stamps, ms: set<Ref>) returns (n: nat)
    requires ms <= st.Keys
    ensures forall m :: m in ms ==> st[m] < n
  {
    if ms == {} {
      n := 0;
    } else {
      var m :| m in ms;
      var k := FreshStamp(st, ms - {m});
      n := if k <= st[m] then st[m] + 1 else k;
    }
  }

  lemma NewModelChain(p: Problem, v: VarMap, mm: ModMap, st: Stamps, m: Ref, c: Cost) returns (n: nat)
    requires StampsOk(p, v, mm, st) && IsModel(p, m) && !HasChain(mm, m) && ParamsChained(p, v, m, 0)
    ensures Later(p, v, mm, st, v, mm[m := ModSp(c, true)], st[m := n])
  {
    n := FreshStamp(st, st.Keys);
    var nn, su := mm[m := ModSp(c, true)], st[m := n];
    forall x: Ref | IsVar(p, x) && Chained(v, x)
      ensures ChainLink(p, v, nn, x)
    {
      assert ChainLink(p, v, mm, x);
    }
    forall d: Ref, e: nat, i: nat | IsModel(p, d) && HasChain(nn, d) && IsParam(p, d, e, i) && e < ModelOf(p, d).cparam
      ensures EarlierParam(p, v, nn, su, d, ParamRef(p, d, e, i))
    {
      var q := ParamRef(p, d, e, i);
      if d == m {
        assert IsVar(p, q) && Chained(v, q);
        assert ChainLink(p, v, mm, q);
      } else {
        assert EarlierParam(p, v, mm, st, d, q);
      }
    }
  }

  // ---------- steps of a value computation ----------

  /** All models being computed come after `m` in the chain order. */
  ghost predicate After(stamp: Stamps, actM: set<Ref>, m: Ref) {
    m in stamp && forall a :: a in actM ==> a in stamp && stamp[m] < stamp[a]
  }

  /** A variable whose model has been called already only unpacks the result. */
  lemma UnpackFacts(p: Problem, v: VarMap, mm: ModMap, st: Stamps, r: Store, act: set<Ref>, actM: set<Ref>, x: Ref)
    requires ValuesOk(p, v, mm, st, r, act, actM) && ChainLink(p, v, mm, x) && !Given(p.g, x.idx) && x !in act
    requires ChainModel(p, x, v[x].st) in r.out
    ensures var m := ChainModel(p, x, v[x].st);
            && RetShape(p, m, r.out[m])
            && ValuesOk(p, v, mm, st, r.(have := r.have + {x}, val := r.val[x := Pick(p, x, v[x].st.ei, m, r.out[m])]),
                act, actM)
  {
    hide StampsOk, Eval, CalledAfterParams, Pick;
    EvalChain(p, v, mm, st, x);
  }

  lemma EvalChain(p: Problem, v: VarMap, mm: ModMap, st: Stamps, x: Ref)
    requires StampsOk(p, v, mm, st) && ChainLink(p, v, mm, x) && !Given(p.g, x.idx)
    ensures var m := ChainModel(p, x, v[x].st);
        Eval(p, v, mm, st, x) == Pick(p, x, v[x].st.ei, m, Outs(p, v, mm, st, m))
  {
    hide StampsOk, Pick, RetShape;
  }

  lemma BeginFacts(p: Problem, v: VarMap, mm: ModMap, st: Stamps, r: Store, act: set<Ref>, actM: set<Ref>, x: Ref)
    requires ValuesOk(p, v, mm, st, r, act, actM) && ChainLink(p, v, mm, x) && !Given(p.g, x.idx)
    requires After(st, actM, ChainModel(p, x, v[x].st)) && ChainModel(p, x, v[x].st) !in r.mval
    ensures var m := ChainModel(p, x, v[x].st);
            ValuesOk(p, v, mm, st, r.(have := r.have + {x}, mval := r.mval + {m}), act + {x}, actM + {m})
  {
  }

  /** The model at hand, or one whose computation began earlier and has not ended. */
  lemma NotActive(p: Problem, v: VarMap, mm: ModMap, st: Stamps, r: Store, act: set<Ref>, actM: set<Ref>, m: Ref)
    requires ValuesOk(p, v, mm, st, r, act, actM) && After(st, actM, m) && m in r.mval
    ensures m in r.out && r.out[m] == Outs(p, v, mm, st, m)
  {
  }

  /** A parameter instance with a value flag is not being computed, so it has its value. */
  lemma ParamReady(p: Problem, v: VarMap, mm: ModMap, st: Stamps, r: Store, act: set<Ref>, actM: set<Ref>, m: Ref,
      e: nat, i: nat)
    requires ValuesOk(p, v, mm, st, r, act, actM + {m}) && After(st, actM, m) && HasChain(mm, m) && IsParam(p, m, e, i)
    requires ParamRef(p, m, e, i) in r.have
    ensures var q := ParamRef(p, m, e, i);
            && Known(p, v, q) && q in r.val && r.val[q] == Eval(p, v, mm, st, q)
            && (e < ModelOf(p, m).cparam ==> ChainIn(p, v, q, r.log))
  {
    ParamKnown(p, v, mm, st, m, e, i);
    var q := ParamRef(p, m, e, i);
    assert Known(p, v, q) && ValueOk(p, v, mm, st, r, act, actM + {m}, q);
  }

  lemma LogCall(p: Problem, v: VarMap, r: Store, m: Ref, out: seq<seq<Value>>)
    requires LogOk(p, v, r) && m !in r.out && CalledAfterParams(p, v, m, r.log)
    ensures LogOk(p, v, r.(out := r.out[m := out], log := r.log + [m]))
  {
    var r1 := r.(out := r.out[m := out], log := r.log + [m]);
    forall k | 0 <= k < |r1.log|
      ensures CalledAfterParams(p, v, r1.log[k], r1.log[..k])
    {
      if k < |r.log| {
        assert r1.log[..k] == r.log[..k] && CalledAfterParams(p, v, r.log[k], r.log[..k]);
      } else {
        assert r1.log[..k] == r.log;
      }
    }
  }

  /** The models of the variables being computed are among those being computed. */
  ghost predicate ActiveOk(p: Problem, v: VarMap, act: set<Ref>, actM: set<Ref>) {
    forall y :: y in act ==>
        IsVar(p, y) && Chained(v, y) && v[y].st.ei < NumEdges(p, y) && ChainModel(p, y, v[y].st) in actM
  }

  lemma ActiveModels(p: Problem, v: VarMap, mm: ModMap, st: Stamps, r: Store, act: set<Ref>, actM: set<Ref>)
    requires ValuesOk(p, v, mm, st, r, act, actM)
    ensures ActiveOk(p, v, act, actM)
  {
    forall y | y in act
      ensures IsVar(p, y) && Chained(v, y) && v[y].st.ei < NumEdges(p, y) && ChainModel(p, y, v[y].st) in actM
    {
      assert Known(p, v, y) && ValueOk(p, v, mm, st, r, act, actM, y);
      assert ChainLink(p, v, mm, y);
    }
  }

  /** The call of a model whose parameters are all there. */
  lemma CallFacts(p: Problem, v: VarMap, mm: ModMap, st: Stamps, r: Store, act: set<Ref>, actM: set<Ref>, x: Ref,
      m: Ref)
    requires ChainLink(p, v, mm, x) && !Given(p.g, x.idx) && x !in act && m == ChainModel(p, x, v[x].st) && m !in actM
    requires ValuesOk(p, v, mm, st, r, act + {x}, actM + {m}) && ActiveOk(p, v, act, actM)
    requires CalledAfterParams(p, v, m, r.log) && m in r.mval && x in r.have
    ensures var out := Outs(p, v, mm, st, m);
            && RetShape(p, m, out)
            && ValuesOk(p, v, mm, st, r.(out := r.out[m := out], log := r.log + [m],
                                         val := r.val[x := Pick(p, x, v[x].st.ei, m, out)]), act, actM)
  {
    hide LogOk, CalledAfterParams, StampsOk, Outs, RetShape, Pick;
    EvalOf(p, v, mm, st, x);
    var out := Outs(p, v, mm, st, m);
    var r0 := r.(out := r.out[m := out], log := r.log + [m]);
    var r1 := r0.(val := r.val[x := Pick(p, x, v[x].st.ei, m, out)]);
    LogCall(p, v, r, m, out);
    LogSame(p, v, r0, r1);
    forall y | y in r1.have
      ensures Known(p, v, y) && ValueOk(p, v, mm, st, r1, act, actM, y)
    {
      assert ValueOk(p, v, mm, st, r, act + {x}, actM + {m}, y);
    }
  }

  lemma EvalOf(p: Problem, v: VarMap, mm: ModMap, st: Stamps, x: Ref)
    requires StampsOk(p, v, mm, st) && ChainLink(p, v, mm, x) && !Given(p.g, x.idx)
    ensures var m := ChainModel(p, x, v[x].st); var out := Outs(p, v, mm, st, m);
            RetShape(p, m, out) && Eval(p, v, mm, st, x) == Pick(p, x, v[x].st.ei, m, out)
  {
  }

  lemma LogSame(p: Problem, v: VarMap, r: Store, s: Store)
    requires LogOk(p, v, r) && r.log == s.log && r.out == s.out
    ensures LogOk(p, v, s)
  {
  }

  lemma GivenFacts(p: Problem, v: VarMap, mm: ModMap, st: Stamps, r: Store, act: set<Ref>, actM: set<Ref>, x: Ref)
    requires ValuesOk(p, v, mm, st, r, act, actM) && IsVar(p, x) && Given(p.g, x.idx)
    ensures ValuesOk(p, v, mm, st, r.(have := r.have + {x}, val := r.val[x := p.given(x)]), act, actM)
  {
    hide StampsOk, Eval, Outs, CalledAfterParams;
    EvalGiven(p, v, mm, st, x);
  }

  lemma EvalGiven(p: Problem, v: VarMap, mm: ModMap, st: Stamps, x: Ref)
    requires StampsOk(p, v, mm, st) && IsVar(p, x) && Given(p.g, x.idx)
    ensures Eval(p, v, mm, st, x) == p.given(x)
  {
    hide StampsOk;
  }

  // ---------- the solver's own changes keep all values ----------

  lemma KeepUnchained(p: Problem, v: VarMap, mm: ModMap, st: Stamps, r: Store, x: Ref, sp: VarSp)
    requires ValuesOk(p, v, mm, st, r, {}, {}) && !Chained(v, x) && sp.st.NoChain?
    ensures ValuesOk(p, v[x := sp], mm, st, r, {}, {})
  {
    NoNewChain(p, v, mm, st, v[x := sp], mm);
    ValuesKept(p, v, mm, st, v[x := sp], mm, st, r);
  }

  lemma KeepRaised(p: Problem, v: VarMap, mm: ModMap, st: Stamps, r: Store, m: Ref, c: Cost)
    requires ValuesOk(p, v, mm, st, r, {}, {}) && !HasChain(mm, m)
    ensures ValuesOk(p, v, mm[m := ModSp(c, false)], st, r, {}, {})
  {
    NoNewChain(p, v, mm, st, v, mm[m := ModSp(c, false)]);
    ValuesKept(p, v, mm, st, v, mm[m := ModSp(c, false)], st, r);
  }

  lemma KeepChosen(p: Problem, v: VarMap, mm: ModMap, st: Stamps, r: Store, x: Ref, c: Cost, ei: nat, m: Ref)
    requires ValuesOk(p, v, mm, st, r, {}, {}) && !Chained(v, x) && IsVar(p, x) && ei < NumEdges(p, x)
    requires HasChain(mm, m)
    requires exists i: nat :: IsCand(p, x, ei, i) && CandRef(p, x, ei, i) == m
    ensures ValuesOk(p, v[x := VarSp(c, Chain(ei, m.inst))], mm, st, r, {}, {})
  {
    var sp := VarSp(c, Chain(ei, m.inst));
    var i: nat :| IsCand(p, x, ei, i) && CandRef(p, x, ei, i) == m;
    assert ReturnsTo(p, x, ei, m);
    assert ChainLink(p, v[x := sp], mm, x);
    NewVarChain(p, v, mm, st, x, sp);
    ValuesKept(p, v, mm, st, v[x := sp], mm, st, r);
  }

  lemma KeepFinished(p: Problem, v: VarMap, mm: ModMap, st: Stamps, r: Store, m: Ref, c: Cost) returns (n: nat)
    requires ValuesOk(p, v, mm, st, r, {}, {}) && IsModel(p, m) && !HasChain(mm, m) && ParamsChained(p, v, m, 0)
    ensures ValuesOk(p, v, mm[m := ModSp(c, true)], st[m := n], r, {}, {})
  {
    n := NewModelChain(p, v, mm, st, m, c);
    ValuesKept(p, v, mm, st, v, mm[m := ModSp(c, true)], st[m := n], r);
  }

  lemma NoValues(p: Problem, v: VarMap, mm: ModMap)
    requires WellFormed(p) && EdgesOk(p)
    requires forall x :: !Chained(v, x)
    requires forall m :: !HasChain(mm, m)
    ensures ValuesOk(p, v, mm, map[], Store({}, {}, map[], map[], []), {}, {})
  {
  }

  // ---------- the computation, seen from the store ----------

  lemma HaveKnown(p: Problem, v: VarMap, mm: ModMap, st: Stamps, r: Store)
    requires ValuesOk(p, v, mm, st, r, {}, {})
    ensures forall x :: x in r.have ==> Known(p, v, x)
  {
  }

  lemma KnownLink(p: Problem, v: VarMap, mm: ModMap, st: Stamps, r: Store, x: Ref)
    requires ValuesOk(p, v, mm, st, r, {}, {}) && Known(p, v, x) && !Given(p.g, x.idx)
    ensures ChainLink(p, v, mm, x) && After(st, {}, ChainModel(p, x, v[x].st))
  {
  }

  lemma NotYetActive(p: Problem, v: VarMap, mm: ModMap, st: Stamps, r: Store, act: set<Ref>, actM: set<Ref>, x: Ref)
    requires ValuesOk(p, v, mm, st, r, act, actM) && ChainLink(p, v, mm, x) && x !in r.have
    requires After(st, actM, ChainModel(p, x, v[x].st))
    ensures x !in act && ChainModel(p, x, v[x].st) !in actM && StampsOk(p, v, mm, st)
  {
  }

  /** Instances of the first `n` parameters have values. */
  ghost predicate ParamsSupplied(p: Problem, have: set<Ref>, m: Ref, n: nat) {
    forall e: nat, i: nat :: e < n && IsParam(p, m, e, i) ==> ParamRef(p, m, e, i) in have
  }

  /** The next parameter instance: given, or computed and earlier in the chain order. */
  lemma ParamNext(p: Problem, v: VarMap, mm: ModMap, st: Stamps, r: Store, act: set<Ref>, actM: set<Ref>, m: Ref,
      e: nat, i: nat)
    requires ValuesOk(p, v, mm, st, r, act, actM + {m}) && After(st, actM, m) && HasChain(mm, m) && IsParam(p, m, e, i)
    ensures var q := ParamRef(p, m, e, i);
            && IsVar(p, q)
            && (!Given(p.g, q.idx) ==> ChainLink(p, v, mm, q) && After(st, actM + {m}, ChainModel(p, q, v[q].st))
                                       && st[ChainModel(p, q, v[q].st)] < st[m])
  {
    ParamKnown(p, v, mm, st, m, e, i);
  }

  lemma AfterParams(p: Problem, v: VarMap, mm: ModMap, st: Stamps, r: Store, act: set<Ref>, actM: set<Ref>, m: Ref)
    requires ValuesOk(p, v, mm, st, r, act, actM + {m}) && After(st, actM, m) && IsModel(p, m) && HasChain(mm, m)
    requires ParamsSupplied(p, r.have, m, |ModelOf(p, m).params|)
    ensures CalledAfterParams(p, v, m, r.log)
  {
    hide ValuesOk;
    forall e: nat, i: nat | e < ModelOf(p, m).cparam && IsParam(p, m, e, i)
      ensures ChainIn(p, v, ParamRef(p, m, e, i), r.log)
    {
      ParamReady(p, v, mm, st, r, act, actM, m, e, i);
    }
  }

  lemma OutsOf(p: Problem, v: VarMap, mm: ModMap, st: Stamps, m: Ref, args: seq<seq<Value>>)
    requires StampsOk(p, v, mm, st) && IsModel(p, m) && HasChain(mm, m) && args == Args(p, v, mm, st, m)
    ensures p.call(m, args) == Outs(p, v, mm, st, m)
  {
  }

  predicate ExInRange(p: Problem, m: Ref, e: nat) {
    IsModel(p, m) && e < |ModelOf(p, m).params| && ModelOf(p, m).params[e].ex < |ModelOf(p, m).params|
  }

  lemma ExFacts(p: Problem, m: Ref, e: nat)
    requires EdgesOk(p) && IsModel(p, m) && e < |ModelOf(p, m).params|
    ensures ExInRange(p, m, e)
    ensures forall d: nat :: d < |ModelOf(p, m).params| && d != e ==>
        ModelOf(p, m).params[d].ex != ModelOf(p, m).params[e].ex
  {
    forall d: nat | d < |ModelOf(p, m).params| && d != e
      ensures ModelOf(p, m).params[d].ex != ModelOf(p, m).params[e].ex
    {
      assert IsExOf(p, m, ModelOf(p, m).params[d].ex, d) && IsExOf(p, m, ModelOf(p, m).params[e].ex, e);
    }
  }

  lemma ArgsComplete(p: Problem, v: VarMap, mm: ModMap, st: Stamps, m: Ref, args: seq<seq<Value>>)
    requires StampsOk(p, v, mm, st) && IsModel(p, m) && HasChain(mm, m) && |args| == |ModelOf(p, m).params|
    requires forall d: nat :: d < |args| ==>
        ExInRange(p, m, d) && args[ModelOf(p, m).params[d].ex] == Arg(p, v, mm, st, m, d)
    ensures args == Args(p, v, mm, st, m)
  {
    var want := Args(p, v, mm, st, m);
    forall k: nat | k < |args|
      ensures args[k] == want[k]
    {
      var e := ParamAt(p, m, k);
      assert IsExOf(p, m, k, e);
    }
  }

  lemma ArgAt(p: Problem, v: VarMap, mm: ModMap, st: Stamps, m: Ref, e: nat, i: nat)
    requires StampsOk(p, v, mm, st) && HasChain(mm, m) && IsParam(p, m, e, i)
    ensures Known(p, v, ParamRef(p, m, e, i)) && Arg(p, v, mm, st, m, e)[i] == Eval(p, v, mm, st, ParamRef(p, m, e, i))
  {
    ParamKnown(p, v, mm, st, m, e, i);
  }

  // ---------- what one argument holds ----------

  predicate HasValue(val: map<Ref, Value>, x: Ref, y: Value) {
    x in val && val[x] == y
  }

  /** The value at the model's own instance, the values of the whole space in ascending order, or those that the user
      map lists, in its order. */
  predicate InOrder(p: Problem, val: map<Ref, Value>, m: Ref, e: nat, arg: seq<Value>)
    requires IsModel(p, m) && e < |ModelOf(p, m).params|
  {
    var q := ModelOf(p, m).params[e];
    match q.via
    case Ident => |arg| == 1 && HasValue(val, Ref(q.idx, m.inst), arg[0])
    case Space(g) => |arg| == Shape(p, g) && forall i :: 0 <= i < |arg| ==> HasValue(val, Ref(q.idx, i), arg[i])
    case User(u) =>
      |arg| == |p.umap(u, m.inst)| &&
      forall i :: 0 <= i < |arg| ==> HasValue(val, Ref(q.idx, p.umap(u, m.inst)[i]), arg[i])
  }

  lemma CollectedInOrder(p: Problem, val: map<Ref, Value>, m: Ref, e: nat, arg: seq<Value>)
    requires IsModel(p, m) && e < |ModelOf(p, m).params| && |arg| == |ParamInsts(p, m, e)|
    requires forall i: nat :: i < |arg| ==> HasValue(val, ParamRef(p, m, e, i), arg[i])
    ensures InOrder(p, val, m, e, arg)
  {
    var q := ModelOf(p, m).params[e];
    forall i: nat | i < |arg|
      ensures HasValue(val, Ref(q.idx, Insts(p, q.via, m.inst)[i]), arg[i])
    {
      assert ParamRef(p, m, e, i) == Ref(q.idx, Insts(p, q.via, m.inst)[i]);
    }
  }
}
