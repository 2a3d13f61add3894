/** The chain solver of fhk: `S_select_chain` as the machine it is, one method per label, on an explicit work stack. */
module Solver {
  import opened Costs
  import opened Graphs
  import opened Closure
  import opened SolverState
  import opened SolverSteps
  import opened SolverExact
  import opened Values
  import Scans
  import opened Depths
  import opened SolverSeen
  import opened SolverPast
  import opened SolverTwice

  class ChainSolver {
    const p: Problem
    ghost const t: Truth
    ghost const lat: set<Cost>
    var vsp: VarMap
    var msp: ModMap
    var wsp: BitMap
    // values: SP_VALUE flags of variables and models, value and result buffers, the calls made so far
    var have: set<Ref>
    var mval: set<Ref>
    var val: map<Ref, Value>
    var out: map<Ref, seq<seq<Value>>>
    var log: seq<Ref>
    ghost var stamp: Stamps
    var stk: seq<XState>
    ghost var snaps: seq<ModMap>
    // variables that counted as done when the present root was taken up
    ghost var dead: set<Ref>
    // everything that was stored at some time: in this state, and when a step or a search began
    ghost var past: set<Moment>

    /** A solver on a well formed problem, for any solution `t` of its cost equations that the start bounds respect. */
    constructor (p: Problem, ghost t: Truth)
      requires WellFormed(p) && EdgesOk(p) && IsSolution(p, t) && StartBounds(p, t)
      ensures this.p == p && this.t == t
      ensures Inv() && stk == []
      ensures forall x: Ref :: !Chained(vsp, x) && !Stuck(p, vsp, x)
      ensures forall m: Ref :: IsModel(p, m) ==> m in msp && msp[m].cost == Fin(ModelOf(p, m).cmin)
      ensures forall x: Ref :: IsVar(p, x) ==> x in vsp && vsp[x].cost == Fin(0.0)
    {
      hide InvOf, ValuesOk, WellFormed, EdgesOk, IsSolution, StartBounds, ClosedTo;
      FormedGraph(p);
      this.p, this.t := p, t;
      ghost var s := ClosureExists(p.g, MAX_COST);
      lat := s;
      vsp := map x | x in AllVars(p) :: VarSp(Fin(0.0), NoChain);
      msp := map m | m in AllModels(p) :: ModSp(Fin(p.g.models[m.idx].cmin), false);
      wsp := map w | w in AllShadows(p) :: Unevaluated;
      have, mval, val, out, log, stamp := {}, {}, map[], map[], [], map[];
      stk, snaps, dead, past := [], [], {}, {};
      new;
      StartFacts(p, t, lat);
      NoValues(p, vsp, msp);
    }

    ghost function Now(): Search
      reads this
    {
      Search(vsp, msp, wsp, have, stk, dead, past)
    }

    ghost function Vals(): Store
      reads this
    {
      Store(have, mval, val, out, log)
    }

    /** The invariant of the solver, in every state between two steps. */
    ghost predicate Inv()
      reads this
    {
      InvOf(p, t, lat, Now(), snaps) && ValuesOk(p, vsp, msp, stamp, Vals(), {}, {})
    }

    ghost function RankAt(k: nat): Rank
      reads this
      requires k < |stk| == |snaps|
    {
      FrameRank(p, lat, msp, snaps[k], stk[k])
    }

    /** What was noted is still noted. */
    twostate predicate Noted()
      reads this
    {
      dead == old(dead) && old(past) <= past
    }

    /** No bound of a model has decreased, no bound of a variable that was not being solved and is not now, and no chain
        has been lost. */
    twostate predicate Grown()
      reads this
    {
      Risen(p, Moment(old(vsp), old(msp)), vsp, msp)
    }

    /** No stored bound, of model or variable, has decreased. */
    twostate predicate NeverLess()
      reads this
    {
      && Below(old(msp), msp)
      && forall x: Ref :: IsVar(p, x) && x in old(vsp) ==> x in vsp && NotLess(old(vsp), vsp, x)
    }

    /** The frame that is now on top, the `n`th, came closer to its end; those below it did not change. */
    twostate predicate Moved(n: nat)
      reads this
    {
      && 0 < n == |stk| == |snaps| && n <= old(|stk|) == old(|snaps|) && Noted()
      && stk[..n - 1] == old(stk[..n - 1]) && snaps[..n - 1] == old(snaps[..n - 1])
      && stk[n - 1].x == old(stk[n - 1].x)
      && LessRank(RankAt(n - 1), old(RankAt(n - 1)))
    }

    /** Of the search, only the frame on top has changed: it is now `g`. */
    twostate predicate TopBecame(g: XState)
      reads this
    {
      old(stk) != [] && stk == SetTop(old(stk), g) && snaps == old(snaps) && vsp == old(vsp) && msp == old(msp)
    }

    /** The model on top has got the bound that goes with `s`, and its frame goes back to its candidates. */
    twostate predicate Raised(s: Cost)
      reads this
    {
      && old(stk) != [] && var f := old(stk)[|old(stk)| - 1];
      && f.m.idx < |p.g.models| && f.m in old(msp)
      && msp == old(msp)[f.m := old(msp)[f.m].(cost := Costf(p.g.models[f.m.idx].k, p.g.models[f.m.idx].c, s))]
      && stk == SetTop(old(stk), f.(where := Candidate)) && snaps == old(snaps) && vsp == old(vsp)
    }

    /** The check at hand has cost its penalty. */
    twostate predicate Penalized()
      reads this
    {
      && old(stk) != [] && var f := old(stk)[|old(stk)| - 1];
      && f.m.idx < |p.g.models| && f.edge < |p.g.models[f.m.idx].checks|
      && var c := Add(f.costS, Fin(p.g.models[f.m.idx].checks[f.edge].penalty));
         if Lt(Fin(f.betaS), c) then Raised(c) else TopBecame(f.(costS := c, edge := f.edge + 1, it := 0))
    }

    /** Scans the candidates for the cheapest stored bound and the second cheapest, capped at `beta`. */
    method SelectCandidate(cands: seq<Cand>, beta: real) returns (cost: Cost, mbeta: real, ei: nat, m: Ref)
      requires forall c, i :: c in cands && 0 <= i < |c.insts| ==> Ref(c.mi, c.insts[i]) in msp
      ensures cost.Inf? || exists c, i ::
          c in cands && 0 <= i < |c.insts| && ei == c.ei && m == Ref(c.mi, c.insts[i]) && msp[m].cost == cost
      ensures forall c, i :: c in cands && 0 <= i < |c.insts| ==>
        var r := Ref(c.mi, c.insts[i]); Le(cost, msp[r].cost) && (r == m || Le(Fin(mbeta), msp[r].cost))
      ensures mbeta <= beta
      ensures Le(cost, Fin(beta)) ==> Le(cost, Fin(mbeta))
      ensures Scans.Taken(cands, msp, beta, cost, mbeta, ei, m)
    {
      hide Scans.Scanned;
      cost, mbeta, ei, m := Inf, beta, 0, Ref(0, 0);
      ghost var d0: nat, j0: nat := 0, 0;
      NothingScanned(cands, beta);
      for ci := 0 to |cands|
        invariant Scans.Scanned(cands, msp, ci, 0, beta, cost, mbeta, d0, j0)
        invariant TakenFrom(cands, cost, ei, m, d0, j0)
        invariant cost.Inf? || exists c, i ::
            c in cands && 0 <= i < |c.insts| && ei == c.ei && m == Ref(c.mi, c.insts[i]) && msp[m].cost == cost
        invariant forall d, i :: 0 <= d < ci && 0 <= i < |cands[d].insts| ==>
          var r := Ref(cands[d].mi, cands[d].insts[i]); Le(cost, msp[r].cost) && (r == m || Le(Fin(mbeta), msp[r].cost))
        invariant mbeta <= beta
        invariant if Le(cost, Fin(beta)) then Le(cost, Fin(mbeta)) else mbeta == beta
      {
        var c := cands[ci];
        for i := 0 to |c.insts|
          invariant Scans.Scanned(cands, msp, ci, i, beta, cost, mbeta, d0, j0)
          invariant TakenFrom(cands, cost, ei, m, d0, j0)
          invariant cost.Inf? || exists c, i ::
              c in cands && 0 <= i < |c.insts| && ei == c.ei && m == Ref(c.mi, c.insts[i]) && msp[m].cost == cost
          invariant forall d, j :: 0 <= d < ci && 0 <= j < |cands[d].insts| ==>
            var r := Ref(cands[d].mi, cands[d].insts[j]);
                Le(cost, msp[r].cost) && (r == m || Le(Fin(mbeta), msp[r].cost))
          invariant forall j :: 0 <= j < i ==>
            var r := Ref(c.mi, c.insts[j]); Le(cost, msp[r].cost) && (r == m || Le(Fin(mbeta), msp[r].cost))
          invariant mbeta <= beta
          invariant if Le(cost, Fin(beta)) then Le(cost, Fin(mbeta)) else mbeta == beta
        {
          var r := Ref(c.mi, c.insts[i]);
          var now := msp[r].cost;
          var second := Max(cost, now);
          Scans.ScanOne(cands, msp, ci, i, beta, cost, mbeta, d0, j0);
          mbeta := if second.Fin? && second.r < mbeta then second.r else mbeta;
          if Lt(now, cost) {
            cost, ei, m := now, c.ei, r;
            d0, j0 := ci, i;
          }
        }
        Scans.ScanRow(cands, msp, ci, beta, cost, mbeta, d0, j0);
      }
      assert Scans.TakenAt(cands, msp, beta, cost, mbeta, ei, m, d0, j0);
      forall c, i | c in cands && 0 <= i < |c.insts|
        ensures var r := Ref(c.mi, c.insts[i]); Le(cost, msp[r].cost) && (r == m || Le(Fin(mbeta), msp[r].cost))
      {
        var d :| 0 <= d < |cands| && cands[d] == c;
      }
    }

    /** The candidate at place `(d, j)`. */
    predicate TakenFrom(cands: seq<Cand>, cost: Cost, ei: nat, m: Ref, d: nat, j: nat) {
      cost.Fin? ==>
        d < |cands| && j < |cands[d].insts| && ei == cands[d].ei && m == Ref(cands[d].mi, cands[d].insts[j])
    }

    lemma NothingScanned(cands: seq<Cand>, beta: real)
      ensures Scans.Scanned(cands, msp, 0, 0, beta, Inf, beta, 0, 0)
    {
    }

    /** `x_bound`: the candidate's `S` exceeds its threshold, so its bound rises above `mbeta`. */
    method Bound(s: Cost) returns (r: Outcome)
      requires Inv() && stk != [] && stk[|stk| - 1].where != Candidate
      requires GraphOk(p.g) && OverThreshold(p, t, lat, stk[|stk| - 1], s)
      requires Reached(p, t, vsp, wsp, stk[|stk| - 1], s)
      modifies this
      ensures r == Running && Inv() && Moved(old(|stk|)) && Raised(s)
      ensures var f := old(stk)[|old(stk)| - 1];
        f.m in msp && Le(old(msp)[f.m].cost, Fin(f.mbeta)) && Lt(Fin(f.mbeta), msp[f.m].cost)
    {
      hide InvOf, ValuesOk, FrameRank, Costf, LessRank;
      var f := stk[|stk| - 1];
      BoundFacts(p, t, lat, Now(), snaps, f, s);
      KeepRaised(p, vsp, msp, stamp, Vals(), f.m, Costf(p.g.models[f.m.idx].k, p.g.models[f.m.idx].c, s));
      var cost := Costf(p.g.models[f.m.idx].k, p.g.models[f.m.idx].c, s);
      msp := msp[f.m := msp[f.m].(cost := cost)];
      if Le(cost, Fin(f.mbeta)) {
        return Unstable;
      }
      stk := SetTop(stk, f.(where := Candidate));
      return Running;
    }

    /** `shadow_penalty`: the check at hand fails, once, whatever its other instances do. */
    method Penalize() returns (r: Outcome)
      requires Inv() && stk != [] && GraphOk(p.g) && AtCheck(p, stk[|stk| - 1])
      requires HasBits(wsp, CheckRef(p, stk[|stk| - 1].m, stk[|stk| - 1].edge, stk[|stk| - 1].it), Failed)
      modifies this
      ensures r == Running && Inv() && Moved(old(|stk|)) && Penalized()
    {
      hide InvOf, ValuesOk, FrameRank, LessRank, OverThreshold, HasBits, TopOk, ProgressOk, FrameOk;
      var f := stk[|stk| - 1];
      TopFacts(p, t, lat, Now(), snaps, f);
      TopCheck(p, t, lat, Now(), snaps, f);
      PenaltyFrame(p, t, lat, Now(), snaps[|stk| - 1], f);
      var cost := Add(f.costS, Fin(p.g.models[f.m.idx].checks[f.edge].penalty));
      if Lt(Fin(f.betaS), cost) {
        r := Bound(cost);
      } else {
        var g := f.(costS := cost, edge := f.edge + 1, it := 0);
        MoveTop(p, t, lat, Now(), snaps, f, g);
        stk := SetTop(stk, g);
        r := Running;
      }
    }

    /** `scanv_computed`, `scanv_given`: how far values go on without a gap after instance `inst`. */
    method ScanEnd(wi: nat, inst: nat) returns (end: nat)
      requires wi < |p.g.shadows| && IsShadow(p, Ref(wi, inst)) && Ref(p.g.shadows[wi], inst) in have
      ensures inst < end
      ensures forall j :: inst <= j < end ==> IsShadow(p, Ref(wi, j)) && Ref(p.g.shadows[wi], j) in have
      ensures !IsShadow(p, Ref(wi, end)) || Ref(p.g.shadows[wi], end) !in have
    {
      var xi := p.g.shadows[wi];
      var shape := Shape(p, p.g.vars[xi].group);
      end := inst + 1;
      while end < shape && Ref(xi, end) in have
        invariant inst < end <= shape
        invariant forall j :: inst <= j < end ==> IsShadow(p, Ref(wi, j)) && Ref(xi, j) in have
      {
        end := end + 1;
      }
    }

    /** `S_checkscan`: evaluates the guard for the instances `[inst, end)`. */
    method CheckScan(wi: nat, inst: nat, end: nat)
      requires Inv() && wi < |p.g.shadows| && inst < end
      requires forall j :: inst <= j < end ==> IsShadow(p, Ref(wi, j)) && Ref(p.g.shadows[wi], j) in have
      modifies this`wsp
      ensures Inv()
      ensures forall j :: inst <= j < end ==> HasBits(wsp, Ref(wi, j), if p.guard(Ref(wi, j)) then Passed else Failed)
      ensures forall w, bits :: old(HasBits(wsp, w, bits)) && !(w.idx == wi && inst <= w.inst < end) ==>
          HasBits(wsp, w, bits)
    {
      hide InvOf, ValuesOk;
      for j := inst to end
        invariant Inv()
        invariant forall l :: inst <= l < j ==> HasBits(wsp, Ref(wi, l), if p.guard(Ref(wi, l)) then Passed else Failed)
        invariant forall w, bits :: old(HasBits(wsp, w, bits)) && !(w.idx == wi && inst <= w.inst < j) ==>
            HasBits(wsp, w, bits)
      {
        var w := Ref(wi, j);
        assert Guarded(p, w) == Ref(p.g.shadows[wi], j);
        ScanFacts(p, t, lat, Now(), snaps, w);
        wsp := wsp[w := Scanned(p.guard(w), wsp[w])];
      }
    }

    /** Makes sure that a solved or given variable instance has its value. */
    method Supply(x: Ref)
      requires Inv() && Known(p, vsp, x)
      modifies this`have, this`mval, this`val, this`out, this`log
      ensures Inv() && x in have && old(have) <= have
    {
      hide InvOf, ValuesOk, Eval;
      ghost var before := Now();
      if x !in have {
        if Given(p.g, x.idx) {
          GetGiven(x, {}, {});
        } else {
          KnownLink(p, vsp, msp, stamp, Vals(), x);
          ComputeValue(x, {}, {});
        }
      }
      HaveKnown(p, vsp, msp, stamp, Vals());
      HaveFacts(p, t, lat, before, snaps, have);
    }

    /** `S_get_given1`: asks for the value of a given variable instance. */
    method GetGiven(x: Ref, ghost act: set<Ref>, ghost actM: set<Ref>)
      requires ValuesOk(p, vsp, msp, stamp, Vals(), act, actM) && IsVar(p, x) && Given(p.g, x.idx)
      modifies this`have, this`val
      ensures ValuesOk(p, vsp, msp, stamp, Vals(), act, actM)
      ensures have == old(have) + {x}
    {
      GivenFacts(p, vsp, msp, stamp, Vals(), act, actM, x);
      val := val[x := p.given(x)];
      have := have + {x};
    }

    /** `S_compute_value`: computes a variable instance along its chain, its parameters first. `act` and `actM` are
        the variables and models whose computation encloses this one. */
    method ComputeValue(x: Ref, ghost act: set<Ref>, ghost actM: set<Ref>)
      requires ValuesOk(p, vsp, msp, stamp, Vals(), act, actM)
      requires ChainLink(p, vsp, msp, x) && !Given(p.g, x.idx) && x !in have
      requires After(stamp, actM, ChainModel(p, x, vsp[x].st))
      modifies this`have, this`mval, this`val, this`out, this`log
      ensures ValuesOk(p, vsp, msp, stamp, Vals(), act, actM)
      ensures old(have) + {x} <= have && old(mval) <= mval
      decreases stamp[ChainModel(p, x, vsp[x].st)], 2
    {
      hide ValuesOk, ValueOk, LogOk, CalledAfterParams, StampsOk, Eval, Outs, Args, Pick, RetShape;
      var m := ChainModel(p, x, vsp[x].st);
      ActiveModels(p, vsp, msp, stamp, Vals(), act, actM);
      NotYetActive(p, vsp, msp, stamp, Vals(), act, actM, x);
      if m in mval {
        NotActive(p, vsp, msp, stamp, Vals(), act, actM, m);
        UnpackFacts(p, vsp, msp, stamp, Vals(), act, actM, x);
        have, val := have + {x}, val[x := Pick(p, x, vsp[x].st.ei, m, out[m])];
      } else {
        BeginFacts(p, vsp, msp, stamp, Vals(), act, actM, x);
        have, mval := have + {x}, mval + {m};
        SupplyParams(m, act + {x}, actM);
        var args := CollectArgs(m, act + {x}, actM);
        AfterParams(p, vsp, msp, stamp, Vals(), act + {x}, actM, m);
        CallFacts(p, vsp, msp, stamp, Vals(), act, actM, x, m);
        var res := p.call(m, args);
        OutsOf(p, vsp, msp, stamp, m, args);
        out, log := out[m := res], log + [m];
        val := val[x := Pick(p, x, vsp[x].st.ei, m, res)];
      }
    }

    /** All parameter instances of `m` get their values: the computed ones first, then the given ones. */
    method SupplyParams(m: Ref, ghost act: set<Ref>, ghost actM: set<Ref>)
      requires ValuesOk(p, vsp, msp, stamp, Vals(), act, actM + {m}) && After(stamp, actM, m) && IsModel(p, m)
      requires HasChain(msp, m)
      modifies this`have, this`mval, this`val, this`out, this`log
      ensures ValuesOk(p, vsp, msp, stamp, Vals(), act, actM + {m})
      ensures old(have) <= have && old(mval) <= mval
      ensures ParamsSupplied(p, have, m, |ModelOf(p, m).params|)
      decreases stamp[m], 1
    {
      hide ValuesOk, ChainLink, Eval;
      for e := 0 to |p.g.models[m.idx].params|
        invariant ValuesOk(p, vsp, msp, stamp, Vals(), act, actM + {m}) && old(have) <= have && old(mval) <= mval
        invariant ParamsSupplied(p, have, m, e)
      {
        var insts := ParamInsts(p, m, e);
        for i := 0 to |insts|
          invariant ValuesOk(p, vsp, msp, stamp, Vals(), act, actM + {m}) && old(have) <= have && old(mval) <= mval
          invariant ParamsSupplied(p, have, m, e)
          invariant forall j: nat :: j < i ==> ParamRef(p, m, e, j) in have
        {
          var q := ParamRef(p, m, e, i);
          ParamNext(p, vsp, msp, stamp, Vals(), act, actM, m, e, i);
          if q !in have {
            if Given(p.g, q.idx) {
              GetGiven(q, act, actM + {m});
            } else {
              ComputeValue(q, act, actM + {m});
            }
          }
        }
      }
    }

    /** `S_mapE_collect` for every parameter, each stored at the position the model expects. */
    method CollectArgs(m: Ref, ghost act: set<Ref>, ghost actM: set<Ref>) returns (args: seq<seq<Value>>)
      requires ValuesOk(p, vsp, msp, stamp, Vals(), act, actM + {m}) && After(stamp, actM, m) && IsModel(p, m)
      requires HasChain(msp, m)
      requires ParamsSupplied(p, have, m, |ModelOf(p, m).params|) && StampsOk(p, vsp, msp, stamp)
      ensures args == Args(p, vsp, msp, stamp, m)
      ensures forall e: nat :: e < |args| ==>
          ExInRange(p, m, e) && InOrder(p, val, m, e, args[ModelOf(p, m).params[e].ex])
    {
      hide ValuesOk, Eval, Args, Arg, InOrder;
      var n := |p.g.models[m.idx].params|;
      var edges := new seq<Value>[n](_ => []);
      for e := 0 to n
        invariant forall d: nat :: d < e ==>
            ExInRange(p, m, d) && edges[ModelOf(p, m).params[d].ex] == Arg(p, vsp, msp, stamp, m, d)
        invariant forall d: nat :: d < e ==> InOrder(p, val, m, d, edges[ModelOf(p, m).params[d].ex])
      {
        var arg := Collect(m, e, act, actM);
        ExFacts(p, m, e);
        edges[p.g.models[m.idx].params[e].ex] := arg;
      }
      args := edges[..];
      ArgsComplete(p, vsp, msp, stamp, m, args);
    }

    /** `S_mapE_collect`: the values of one parameter, instance by instance. */
    method Collect(m: Ref, e: nat, ghost act: set<Ref>, ghost actM: set<Ref>) returns (arg: seq<Value>)
      requires ValuesOk(p, vsp, msp, stamp, Vals(), act, actM + {m}) && After(stamp, actM, m) && IsModel(p, m)
      requires HasChain(msp, m)
      requires e < |ModelOf(p, m).params| && ParamsSupplied(p, have, m, e + 1) && StampsOk(p, vsp, msp, stamp)
      ensures arg == Arg(p, vsp, msp, stamp, m, e)
      ensures InOrder(p, val, m, e, arg)
    {
      hide ValuesOk, Eval, InOrder;
      arg := [];
      var insts := ParamInsts(p, m, e);
      for i := 0 to |insts|
        invariant arg == Arg(p, vsp, msp, stamp, m, e)[..i]
        invariant forall j: nat :: j < i ==> HasValue(val, ParamRef(p, m, e, j), arg[j])
      {
        ParamReady(p, vsp, msp, stamp, Vals(), act, actM, m, e, i);
        ArgAt(p, vsp, msp, stamp, m, e, i);
        arg := arg + [val[ParamRef(p, m, e, i)]];
      }
      CollectedInOrder(p, val, m, e, arg);
    }

    /** `shadow_compute`: the checked variable is known, so its guard decides. */
    method Evaluate() returns (r: Outcome)
      requires Inv() && stk != [] && GraphOk(p.g) && AtCheck(p, stk[|stk| - 1])
      requires var f := stk[|stk| - 1]; Known(p, vsp, Guarded(p, CheckRef(p, f.m, f.edge, f.it)))
      modifies this
      ensures r == Running && Inv() && Moved(old(|stk|))
      ensures var f := old(stk)[|old(stk)| - 1];
        if p.guard(CheckRef(p, f.m, f.edge, f.it)) then TopBecame(f.(it := f.it + 1)) else Penalized()
    {
      hide InvOf, ValuesOk, FrameRank, LessRank, HasBits, Known;
      var f := stk[|stk| - 1];
      var w := CheckRef(p, f.m, f.edge, f.it);
      TopCheck(p, t, lat, Now(), snaps, f);
      RunCheck(w);
      if p.guard(w) {
        r := Pass();
      } else {
        r := Penalize();
      }
    }

    /** Gets the value of the guarded variable and evaluates the guard, there and as far as values go on. */
    method RunCheck(w: Ref)
      requires Inv() && IsShadow(p, w) && Known(p, vsp, Guarded(p, w))
      modifies this`have, this`mval, this`val, this`out, this`log, this`wsp
      ensures Inv() && HasBits(wsp, w, if p.guard(w) then Passed else Failed)
    {
      hide InvOf, ValuesOk, HasBits;
      Supply(Guarded(p, w));
      var end := ScanEnd(w.idx, w.inst);
      CheckScan(w.idx, w.inst, end);
    }

    /** The instance at hand passed: `SI_NEXT`. */
    method Pass() returns (r: Outcome)
      requires Inv() && stk != [] && GraphOk(p.g) && AtCheck(p, stk[|stk| - 1])
      requires HasBits(wsp, CheckRef(p, stk[|stk| - 1].m, stk[|stk| - 1].edge, stk[|stk| - 1].it), Passed)
      modifies this`stk
      ensures r == Running && Inv() && Moved(old(|stk|))
      ensures TopBecame(old(stk)[|old(stk)| - 1].(it := old(stk)[|old(stk)| - 1].it + 1))
    {
      hide InvOf, ValuesOk, FrameRank, LessRank, HasBits, TopOk, ProgressOk, FrameOk, CheckRef;
      var f := stk[|stk| - 1];
      TopFacts(p, t, lat, Now(), snaps, f);
      TopCheck(p, t, lat, Now(), snaps, f);
      PassedFrame(p, t, lat, Now(), snaps[|stk| - 1], f);
      var g := f.(it := f.it + 1);
      MoveTop(p, t, lat, Now(), snaps, f, g);
      stk := SetTop(stk, g);
      r := Running;
    }

    /** `x_chosen`: the variable on top gets its chain and exact cost. */
    method Choose(ei: nat, m: Ref, cost: Cost) returns (r: Outcome)
      requires Inv() && stk != [] && BestChain(p, t, Now(), stk[|stk| - 1].x, ei, m, cost)
      requires Le(cost, Fin(stk[|stk| - 1].beta)) && Stored(lat, cost)
      modifies this
      ensures Inv() && Extends(old(vsp), vsp)
      ensures vsp == old(vsp)[old(stk)[|old(stk)| - 1].x := VarSp(cost, Chain(ei, m.inst))]
      ensures if old(|stk|) == 1 then r == Solved && stk == [] && Noted() && Chained(vsp, old(stk[0].x))
              else r == Running && Moved(old(|stk|) - 1)
    {
      hide InvOf, ValuesOk, FrameRank, LessRank, BestChain, Stored, HasBits, ProgressOk, FrameOk, GraphOk, AtCheck,
        Next;
      var f := stk[|stk| - 1];
      ChooseFacts(p, t, lat, Now(), snaps, f, ei, m, cost);
      TopUnchained(p, t, lat, Now(), snaps, f);
      KeepBest(p, t, Now(), stamp, Vals(), f.x, ei, m, cost);
      vsp := vsp[f.x := VarSp(cost, Chain(ei, m.inst))];
      stk, snaps := Below1(stk), Below1(snaps);
      if stk == [] {
        return Solved;
      }
      RankIgnoresBounds(p, lat, old(msp), msp, snaps[|stk| - 1], stk[|stk| - 1]);
      r := Resume(f.x, cost);
    }

    /** The frame on top waited for `x`, which has just been chosen at `cost`. */
    method Resume(ghost x: Ref, cost: Cost) returns (r: Outcome)
      requires Inv() && stk != [] && GraphOk(p.g) && |snaps| == |stk|
      requires ChooseResume(p, t, lat, Now(), snaps[|stk| - 1], stk[|stk| - 1], x, cost)
      requires IsVar(p, x)
      modifies this
      ensures r == Running && Inv() && Moved(old(|stk|))
      ensures vsp == old(vsp)
    {
      hide InvOf, ValuesOk, FrameRank, LessRank, HasBits, ProgressOk, FrameOk;
      var g := stk[|stk| - 1];
      if g.where == Param {
        r := MoveOn(g.(ssmax := Max(g.ssmax, cost), it := g.it + 1));
      } else {
        r := Evaluate();
      }
    }

    /** `x_failed`: no candidate of the variable on top costs at most its `beta`. */
    method Fail(cost: Cost) returns (r: Outcome)
      requires Inv() && stk != []
      requires Lt(Fin(stk[|stk| - 1].beta), cost) && Le(cost, t.v(stk[|stk| - 1].x)) && Stored(lat, cost)
      requires LeastCand(p, msp, stk[|stk| - 1].x, cost)
      modifies this
      ensures Inv() && Extends(old(vsp), vsp)
      ensures vsp == old(vsp)[old(stk)[|old(stk)| - 1].x := VarSp(cost, NoChain)]
      ensures old(|stk|) == 1 ==>
          r == Unsolvable && stk == [] && Noted() && Lt(Fin(MAX_COST), t.v(old(stk[0].x)))
      ensures old(|stk|) > 1 ==> r == Running && Moved(old(|stk|) - 1)
    {
      hide InvOf, ValuesOk, FrameRank, LessRank, Stored, OverThreshold, Extends, FailResume, GraphOk, Given, Raised,
        Penalized, LeastCand;
      var f := stk[|stk| - 1];
      FailFacts(p, t, lat, Now(), snaps, f, cost);
      TopUnchained(p, t, lat, Now(), snaps, f);
      KeepUnchained(p, vsp, msp, stamp, Vals(), f.x, VarSp(cost, NoChain));
      vsp := vsp[f.x := VarSp(cost, NoChain)];
      stk, snaps := Below1(stk), Below1(snaps);
      if stk == [] {
        return Unsolvable;
      }
      r := TakeFailure(cost);
    }

    /** The frame on top waited for a variable that has failed, at more than `cost`. */
    method TakeFailure(cost: Cost) returns (r: Outcome)
      requires Inv() && stk != [] && GraphOk(p.g) && FailResume(p, t, lat, Now(), snaps, stk[|stk| - 1], cost)
      modifies this
      ensures r == Running && Inv() && Moved(old(|stk|)) && vsp == old(vsp)
      ensures var g := old(stk)[|old(stk)| - 1]; if g.where == Param then Raised(Add(g.costS, cost)) else Penalized()
    {
      hide InvOf, ValuesOk, FrameRank, LessRank, OverThreshold;
      if stk[|stk| - 1].where == Param {
        r := Bound(Add(stk[|stk| - 1].costS, cost));
      } else {
        r := FailCheck();
      }
    }

    /** The check at hand fails, since its variable has no chain: `SP_EVAL` without `SP_PASS`. */
    method FailCheck() returns (r: Outcome)
      requires Inv() && stk != [] && GraphOk(p.g) && AtCheck(p, stk[|stk| - 1])
      requires var w := CheckRef(p, stk[|stk| - 1].m, stk[|stk| - 1].edge, stk[|stk| - 1].it);
        InvOf(p, t, lat, Now().(b := wsp[w := Failed]), snaps)
      modifies this
      ensures r == Running && Inv() && Moved(old(|stk|)) && Penalized()
    {
      hide InvOf, ValuesOk, FrameRank, LessRank;
      var f := stk[|stk| - 1];
      wsp := wsp[CheckRef(p, f.m, f.edge, f.it) := Failed];
      r := Penalize();
    }

    /** A fresh frame is on top. */
    twostate predicate Pushed()
      reads this
    {
      && |stk| == |snaps| == old(|stk|) + 1 && old(|stk|) == old(|snaps|) && Noted()
      && stk[..old(|stk|)] == old(stk) && snaps[..old(|stk|)] == old(snaps) && msp == old(msp)
    }

    /** `x_solve`: starts work on a variable, for the frame on top or for the root. */
    method Enter(x: Ref, beta: real) returns (r: Outcome)
      requires Inv() && GraphOk(p.g) && WellFormed(p) && IsVar(p, x) && Target(p, Now(), x, beta)
      modifies this
      ensures r == Running || r == Cycle || r == TooDeep
      ensures r == TooDeep <==>
          old(|stk|) + 1 >= MAX_STK || (!Marked(old(vsp), x) && old(NextStart(stk)) + NumEdges(p, x) >= MAX_CANDSTK)
      ensures r == TooDeep ==> Deep(p, if old(stk) == [] then x else old(stk)[0].x)
      ensures r == Running ==> Inv() && Extends(old(vsp), vsp) && Pushed() && stk[|stk| - 1].x == x
      ensures r == Running ==> vsp == Mark(old(vsp), x) && stk[|stk| - 1] == NewFrame(p, x, beta, stk[|stk| - 1].start)
      ensures r == Running ==> stk[|stk| - 1].start == if |stk| == 1 then 0
          else stk[|stk| - 2].start + |stk[|stk| - 2].cands|
      ensures r == Cycle ==> Marked(old(vsp), x) && !Acyclic(p)
    {
      hide InvOf, ValuesOk, FrameRank, LessRank, Acyclic, WellFormed, Scan, CandList, Stored, Marked, Deep, Extends,
          Waiting, Pending;
      var start := if stk == [] then 0 else stk[|stk| - 1].start + |stk[|stk| - 1].cands|;
      if |stk| + 1 >= MAX_STK || start + NumEdges(p, x) >= MAX_CANDSTK {
        TooDeepIsDeep(p, t, lat, Now(), snaps, x, beta);
      }
      if |stk| + 1 >= MAX_STK {
        return TooDeep;
      }
      if Marked(vsp, x) {
        MarkedIsCycle(p, t, lat, Now(), snaps, x, beta);
        return Cycle;
      }
      PushFacts(p, t, lat, Now(), snaps, x, beta, start);
      KeepUnchained(p, vsp, msp, stamp, Vals(), x, VarSp(Fin(SP_MARK), NoChain));
      vsp := Mark(vsp, x);
      var f := NewFrame(p, x, beta, start);
      stk, snaps := stk + [f], snaps + [msp];
      if start + NumEdges(p, x) >= MAX_CANDSTK {
        return TooDeep;
      }
      // without candidates the scan at `candidate` finds only infinity, and the variable fails at once
      return Running;
    }

    /** `candidate`: takes up the cheapest candidate, unless even that exceeds `beta`. */
    method StepCandidate() returns (r: Outcome)
      requires Inv() && stk != [] && stk[|stk| - 1].where == Candidate
      modifies this
      ensures Inv() && Extends(old(vsp), vsp)
      ensures if old(|stk|) == 1
              then Ended(r) || (r == Running && Moved(1))
              else r == Running && (Moved(old(|stk|)) || Moved(old(|stk|) - 1))
    {
      hide InvOf, ValuesOk, FrameRank, LessRank, BestChain, Stored, LeastCand, Scans.Taken, WellFormed;
      var f := stk[|stk| - 1];
      CandsStored(p, t, lat, Now(), snaps, f);
      var cost, mbeta, ei, m := SelectCandidate(f.cands, f.beta);
      ScanLower(p, t, lat, Now(), snaps, f, cost, mbeta, ei, m);
      if Lt(Fin(f.beta), cost) {
        ScanLeast(p, t, lat, Now(), snaps, f, cost, mbeta, ei, m);
        r := Fail(cost);
      } else if msp[m].chain {
        ChainedCandidate(p, t, lat, Now(), snaps, f, cost, mbeta, ei, m);
        r := Choose(ei, m, cost);
      } else {
        TakeUp(f, cost, mbeta, ei, m);
        r := Running;
      }
    }

    /** Begins work on candidate `m`, up to `mbeta`. */
    method TakeUp(f: XState, cost: Cost, mbeta: real, ei: nat, m: Ref)
      requires Inv() && stk != [] && f == stk[|stk| - 1] && f.where == Candidate
      requires Scan(msp, f, cost, mbeta, ei, m) && Le(cost, Fin(f.beta)) && m in msp && !msp[m].chain
      modifies this
      ensures Inv() && vsp == old(vsp) && msp == old(msp) && Moved(old(|stk|))
      ensures IsModel(p, m) && ModelOf(p, m).c >= 1.0 && stk == SetTop(old(stk), Begin(p, f, mbeta, ei, m))
    {
      hide InvOf, ValuesOk, FrameRank, LessRank;
      SelectFacts(p, t, lat, Now(), snaps, f, cost, mbeta, ei, m);
      stk, snaps := SetTop(stk, Begin(p, f, mbeta, ei, m)), SetTop(snaps, msp);
    }

    /** The outcome of the whole solve, for the root `x`. */
    twostate predicate Ended(r: Outcome)
      reads this
      requires old(|stk|) > 0
    {
      && stk == [] && Noted()
      && (r == Solved || r == Unsolvable)
      && (r == Solved ==> Chained(vsp, old(stk[0].x)))
      && (r == Unsolvable ==> Lt(Fin(MAX_COST), t.v(old(stk[0].x))))
    }

    /** One step of the check loop. */
    method StepShadow() returns (r: Outcome)
      requires Inv() && stk != [] && stk[|stk| - 1].where == Shadow
      modifies this
      ensures r == Running || r == Cycle || r == TooDeep
      ensures r == Running ==> Inv() && Extends(old(vsp), vsp) && (Moved(old(|stk|)) || Pushed())
      ensures r == Cycle ==> !Acyclic(p)
      ensures r == TooDeep ==> Deep(p, old(stk[0].x))
    {
      hide InvOf, ValuesOk, FrameRank, LessRank, Acyclic, Setup, FrameOk, Next, WellFormed, Deep;
      var f := stk[|stk| - 1];
      TopFacts(p, t, lat, Now(), snaps, f);
      SetupGraph(p, t, lat);
      TopChecks(p, t, lat, Now(), f);
      var mod := p.g.models[f.m.idx];
      if f.edge == |mod.checks| {
        ParamsFrame(p, t, lat, Now(), snaps[|stk| - 1], f);
        r := MoveOn(f.(where := Param, edge := mod.cparam, it := 0, ssmax := Fin(0.0)));
      } else if f.it == |CheckInsts(p, f.m, f.edge)| {
        CheckDoneFrame(p, t, lat, Now(), snaps[|stk| - 1], f);
        r := MoveOn(f.(edge := f.edge + 1, it := 0));
      } else {
        var w := CheckRef(p, f.m, f.edge, f.it);
        var x := Guarded(p, w);
        TopCheck(p, t, lat, Now(), snaps, f);
        CheckTarget(p, t, lat, Now(), snaps, f);
        match wsp[w]
        case Passed => r := Pass();
        case Failed => r := Penalize();
        case Unevaluated =>
          if Given(p.g, x.idx) || vsp[x].st.Chain? {
            r := Evaluate();
          } else {
            r := Enter(x, MAX_COST);
          }
      }
    }

    /** The frame on top becomes `g`. */
    method MoveOn(g: XState) returns (r: Outcome)
      requires Inv() && stk != [] && GraphOk(p.g) && IsModel(p, stk[|stk| - 1].m) && |stk| == |snaps|
      requires Next(p, t, lat, Now(), snaps[|stk| - 1], stk[|stk| - 1], g)
      modifies this`stk
      ensures r == Running && Inv() && Moved(old(|stk|)) && TopBecame(g)
    {
      hide InvOf, ValuesOk, FrameRank, LessRank, ProgressOk;
      MoveTop(p, t, lat, Now(), snaps, stk[|stk| - 1], g);
      stk := SetTop(stk, g);
      r := Running;
    }

    /** The candidate on top stayed within its threshold to the end: it gets its exact cost and chain, and is chosen. */
    method Finish() returns (r: Outcome)
      requires Inv() && stk != [] && stk[|stk| - 1].where == Param && stk[|stk| - 1].edge == 0
      modifies this
      ensures Inv() && Extends(old(vsp), vsp)
      ensures var f := old(stk)[|old(stk)| - 1];
        f.m.idx < |p.g.models| &&
        var g := p.g.models[f.m.idx];
        vsp == old(vsp)[f.x := VarSp(Costf(g.k, g.c, f.costS), Chain(f.ei, f.m.inst))]
      ensures if old(|stk|) == 1 then r == Solved && stk == [] && Noted() && Chained(vsp, old(stk[0].x))
              else r == Running && Moved(old(|stk|) - 1)
    {
      hide InvOf, ValuesOk, FrameRank, LessRank, BestChain, Stored, Costf;
      var f := stk[|stk| - 1];
      FinishFacts(p, t, lat, Now(), snaps, f);
      StackSize(p, t, lat, Now(), snaps);
      if |stk| > 1 {
        CallerWorks(p, t, lat, Now(), snaps);
      }
      var cost := Costf(p.g.models[f.m.idx].k, p.g.models[f.m.idx].c, f.costS);
      ghost var n := KeepTop(p, t, lat, Now(), snaps, stamp, Vals(), f, cost);
      msp, stamp := msp[f.m := ModSp(cost, true)], stamp[f.m := n];
      stk := SetTop(stk, f.(where := Candidate));
      if |stk| > 1 {
        RankIgnoresBounds(p, lat, old(msp), msp, snaps[|stk| - 2], stk[|stk| - 2]);
      }
      r := Choose(f.ei, f.m, cost);
    }

    /** One step of the parameter loop. */
    method StepParam() returns (r: Outcome)
      requires Inv() && stk != [] && stk[|stk| - 1].where == Param
      modifies this
      ensures r == Running || r == Solved || r == Cycle || r == TooDeep
      ensures r == Running || r == Solved ==> Inv() && Extends(old(vsp), vsp)
      ensures r == Running ==> Moved(old(|stk|)) || Pushed() || (old(|stk|) > 1 && Moved(old(|stk|) - 1))
      ensures r == Solved ==> old(|stk|) == 1 && Ended(r)
      ensures r == Cycle ==> !Acyclic(p)
      ensures r == TooDeep ==> Deep(p, old(stk[0].x))
    {
      hide InvOf, ValuesOk, FrameRank, LessRank, Acyclic, Setup, FrameOk, Next, WellFormed, BestChain, Stored,
          OverThreshold, Deep, TopOk, Target, Reached, Marked;
      var f := stk[|stk| - 1];
      TopFacts(p, t, lat, Now(), snaps, f);
      SetupGraph(p, t, lat);
      TopParams(p, t, lat, Now(), f);
      var mod := p.g.models[f.m.idx];
      if f.edge == 0 {
        r := Finish();
      } else if f.it == |ParamInsts(p, f.m, f.edge - 1)| {
        ParamDoneFrame(p, t, lat, Now(), snaps[|stk| - 1], f);
        r := MoveOn(f.(costS := Add(f.costS, f.ssmax), edge := f.edge - 1, it := 0, ssmax := Fin(0.0)));
      } else {
        var x := ParamRef(p, f.m, f.edge - 1, f.it);
        ParamTarget(p, t, lat, Now(), snaps, f);
        var sp := vsp[x];
        if Lt(Fin(f.betaS), Add(f.costS, sp.cost)) {
          ParamOver(p, t, lat, Now(), f, sp.cost);
          r := Bound(Add(f.costS, sp.cost));
        } else if sp.st.Chain? {
          ParamWithin(p, t, lat, Now(), snaps[|stk| - 1], f, sp.cost);
          r := MoveOn(f.(ssmax := Max(f.ssmax, sp.cost), it := f.it + 1));
        } else {
          r := Enter(x, f.betaS - f.costS.r);
        }
      }
    }

    /** One step of the frame on top. */
    method Step() returns (r: Outcome)
      requires Inv() && stk != []
      modifies this
      ensures r != Unstable && r != Missing
      ensures r == Running || r == Solved || r == Unsolvable ==> Inv() && Extends(old(vsp), vsp) && Grown()
      ensures r == Running ==> Moved(old(|stk|)) || Pushed() || (old(|stk|) > 1 && Moved(old(|stk|) - 1))
      ensures r == Solved || r == Unsolvable ==> old(|stk|) == 1 && Ended(r)
      ensures r == Cycle ==> !Acyclic(p)
      ensures r == TooDeep ==> Deep(p, old(stk[0].x))
    {
      hide InvOf, ValuesOk, FrameRank, LessRank, Acyclic, Extends, Deep, Risen;
      Note();
      match stk[|stk| - 1].where {
        case Candidate => r := StepCandidate();
        case Shadow => r := StepShadow();
        case Param => r := StepParam();
      }
      if r == Running || r == Solved || r == Unsolvable {
        PastRisen(p, t, lat, Now(), snaps, Moment(old(vsp), old(msp)));
      }
    }

    /** Notes what is stored. */
    ghost method Note()
      requires Inv()
      modifies this`past
      ensures Inv() && past == old(past) + {Moment(vsp, msp)}
    {
      hide InvOf, ValuesOk;
      NotePast(p, t, lat, Now(), snaps);
      past := past + {Moment(vsp, msp)};
    }

    /** Between idle states, `Grown` leaves no exception. */
    twostate lemma GrownIdle()
      requires old(Inv()) && old(stk) == [] && Inv() && stk == [] && Moment(old(vsp), old(msp)) in past
      ensures NeverLess()
    {
      hide InvOf, ValuesOk, Below, Extends;
      PastRisen(p, t, lat, Now(), snaps, Moment(old(vsp), old(msp)));
      forall x: Ref | IsVar(p, x) && x in old(vsp)
        ensures x in vsp && NotLess(old(vsp), vsp, x)
      {
        IdleUnmarked(p, t, lat, old(Now()), old(snaps), x);
        IdleUnmarked(p, t, lat, Now(), snaps, x);
      }
    }

    /** Runs until frame `n`, on top at the start, is done. Nested frames run in nested calls, so that every
        level has its own progress measure; the steps taken are those of one flat loop over `Step`. */
    method RunFrame(n: nat) returns (r: Outcome)
      requires Inv() && |stk| == n > 0
      modifies this
      ensures r != Unstable && r != Missing
      ensures r == Running ==> n > 1 && Inv() && Extends(old(vsp), vsp) && Moved(n - 1)
      ensures r == Solved || r == Unsolvable ==> n == 1 && Inv() && Extends(old(vsp), vsp) && Ended(r)
      ensures r == Cycle ==> !Acyclic(p)
      ensures r == TooDeep ==> Deep(p, old(stk[0].x))
      decreases MAX_STK - n, 1
    {
      hide InvOf, ValuesOk, FrameRank, Acyclic, FrameOk, TopOk, Setup, Deep, Extends;
      StackSize(p, t, lat, Now(), snaps);
      ExtendsRefl(vsp);
      while true
        invariant Inv() && |stk| == |snaps| == n && Extends(old(vsp), vsp)
        invariant stk[..n - 1] == old(stk[..n - 1]) && snaps[..n - 1] == old(snaps[..n - 1])
        invariant stk[n - 1].x == old(stk[n - 1].x) && stk[0].x == old(stk[0].x) && Noted()
        decreases RankAt(n - 1).todo, RankAt(n - 1).phase, RankAt(n - 1).edges, RankAt(n - 1).insts
      {
        ghost var v := vsp;
        if n > 1 {
          CallerWorks(p, t, lat, Now(), snaps);
          assert old(stk[..n - 1])[n - 2] == stk[..n - 1][n - 2];
          RankIgnoresBounds(p, lat, old(msp), msp, snaps[n - 2], stk[n - 2]);
        }
        r := RunStep(n);
        if r == Running || r == Solved || r == Unsolvable {
          ExtendsTrans(old(vsp), v, vsp);
        }
        if r != Running || |stk| < n {
          return;
        }
      }
    }

    /** One step of frame `n`, and if that has pushed a frame, the whole run of the new frame. */
    method RunStep(n: nat) returns (r: Outcome)
      requires Inv() && |stk| == n > 0
      modifies this
      ensures r != Unstable && r != Missing
      ensures r == Running ==> Inv() && Extends(old(vsp), vsp) && (Moved(n) || (n > 1 && Moved(n - 1)))
      ensures r == Solved || r == Unsolvable ==> n == 1 && Inv() && Extends(old(vsp), vsp) && Ended(r)
      ensures r == Cycle ==> !Acyclic(p)
      ensures r == TooDeep ==> Deep(p, old(stk[0].x))
      decreases MAX_STK - n, 0
    {
      hide InvOf, ValuesOk, FrameRank, LessRank, Acyclic, Deep, Extends;
      StackSize(p, t, lat, Now(), snaps);
      r := Step();
      if r == Running && |stk| == n + 1 {
        ghost var v := vsp;
        StackSize(p, t, lat, Now(), snaps);
        CallerWorks(p, t, lat, Now(), snaps);
        r := RunFrame(n + 1);
        if r == Running {
          ExtendsTrans(old(vsp), v, vsp);
        }
      }
    }

    /** `S_select_chain`. Terminates on every graph; either settles the root against the true costs, or exits
        because the work stack overflowed or because the graph has a cycle. */
    method SelectChain(root: Ref) returns (r: Outcome)
      requires Inv() && stk == [] && IsVar(p, root) && !Given(p.g, root.idx) && !Chained(vsp, root)
      modifies this
      ensures r == Solved || r == Unsolvable || r == Cycle || r == TooDeep
      ensures r == Solved || r == Unsolvable ==> Inv() && stk == [] && Noted() && Extends(old(vsp), vsp) && NeverLess()
      ensures r == Solved ==> Chained(vsp, root) && vsp[root].cost == t.v(root) && Le(t.v(root), Fin(MAX_COST))
      ensures r == Unsolvable ==> Lt(Fin(MAX_COST), t.v(root))
      ensures r == Cycle ==> !Acyclic(p)
      ensures r == TooDeep ==> Deep(p, root)
    {
      hide InvOf, ValuesOk, FrameRank, Acyclic, FrameOk, TopOk, Setup, LessRank, Deep, Extends, NeverLess;
      Note();
      IdleFacts(p, t, lat, Now(), snaps);
      r := Enter(root, MAX_COST);
      if r == Running {
        ghost var v := vsp;
        r := RunFrame(1);
        if r == Solved || r == Unsolvable {
          ExtendsTrans(old(vsp), v, vsp);
          ChainedExact(p, t, lat, Now(), snaps, root);
          GrownIdle();
        }
      }
    }

    /** The value of `x` is there and comes from the chosen chain, whose cost is the true cost of `x`. */
    ghost predicate RootSolved(x: Ref)
      reads this
    {
      && StampsOk(p, vsp, msp, stamp) && Known(p, vsp, x)
      && x in val && val[x] == Eval(p, vsp, msp, stamp, x)
      && (!Given(p.g, x.idx) ==> vsp[x].cost == t.v(x) && Le(t.v(x), Fin(MAX_COST)))
    }

    /** The solve of instance `i` of root `k` began in the idle state `s`, with all roots before it settled, and its
        true cost is above the limit. */
    ghost predicate NoChainFor(roots: seq<Root>, k: int, i: int, s: Search, snap: seq<ModMap>) {
      && InvOf(p, t, lat, s, snap) && s.stk == [] && InRoots(roots, k, i) && UpTo(p, s.v, roots, k, i)
      && Lt(Fin(MAX_COST), t.v(Ref(roots[k].xi, i))) && !Settled(p, s.v, Ref(roots[k].xi, i))
    }

    /** Some root costs at least the limit. */
    ghost predicate TooDearRoot(roots: seq<Root>) {
      exists k, i :: InRoots(roots, k, i) && DearRoot(Ref(roots[k].xi, i))
    }

    ghost predicate DearRoot(x: Ref) {
      !Given(p.g, x.idx) && Le(Fin(MAX_COST), t.v(x))
    }

    /** `S_solve`, for one batch of roots: given values, then chains, then values. A root without a chain is reported
        as unsolvable, unless it already counts as done when its turn comes: then the batch goes on to compute a value
        that has no chain. */
    method Solve(roots: seq<Root>) returns (r: Outcome)
      requires Inv() && stk == [] && forall k :: 0 <= k < |roots| ==> RootOk(p, roots[k])
      modifies this
      ensures r == Solved || r == Unsolvable || r == Cycle || r == TooDeep || r == Missing
      ensures r != Cycle && r != TooDeep ==> Inv() && stk == [] && NeverLess()
      ensures r == Solved ==> forall k, i :: InRoots(roots, k, i) ==> RootSolved(Ref(roots[k].xi, i))
      ensures r == Missing ==> TooDearRoot(roots)
      ensures r == Solved || r == Missing ==>
        (r == Missing <==> exists k, i :: InRoots(roots, k, i) && Stuck(p, vsp, Ref(roots[k].xi, i)))
      ensures r == Solved ==>
        forall k, i :: InRoots(roots, k, i) && Stuck(p, old(vsp), Ref(roots[k].xi, i)) ==>
            old(vsp)[Ref(roots[k].xi, i)].cost == Fin(MAX_COST)
      ensures Single(roots) ==> (r == Missing <==> Stuck(p, old(vsp), Ref(roots[0].xi, roots[0].inst)))
      ensures r == Unsolvable ==> exists k, i, s, snap :: NoChainFor(roots, k, i, s, snap)
      ensures r == Cycle ==> !Acyclic(p)
      ensures r == TooDeep ==> exists k, i :: InRoots(roots, k, i) && Deep(p, Ref(roots[k].xi, i))
    {
      hide InvOf, ValuesOk, Acyclic, Eval, StampsOk, Extends, Settled, Stuck, Deep, NoChainFor, NeverLess, RootSolved,
        WereStuck, TooDearRoot, UpTo, Known;
      Note();
      ghost var v := vsp;
      StuckBefore(roots);
      GivenRoots(roots);
      r := ChainRoots(roots);
      if r == Solved {
        r := ValueRoots(roots);
      }
      if r != Cycle && r != TooDeep {
        GrownIdle();
      }
      if r == Solved {
        StuckAtLimit(v, roots);
      }
    }

    lemma StuckAtLimit(v: VarMap, roots: seq<Root>)
      requires WereStuck(v, roots) && forall k, i :: InRoots(roots, k, i) ==> RootSolved(Ref(roots[k].xi, i))
      ensures forall k, i :: InRoots(roots, k, i) && Stuck(p, v, Ref(roots[k].xi, i)) ==>
          v[Ref(roots[k].xi, i)].cost == Fin(MAX_COST)
    {
      hide Eval, StampsOk, Known;
      forall k, i | InRoots(roots, k, i) && Stuck(p, v, Ref(roots[k].xi, i))
        ensures v[Ref(roots[k].xi, i)].cost == Fin(MAX_COST)
      {
        assert RootSolved(Ref(roots[k].xi, i)) && StuckCost(p, t, v, Ref(roots[k].xi, i));
      }
    }

    /** Roots that are stuck in `v` cost at least their bounds there, which are at least the limit. */
    ghost predicate WereStuck(v: VarMap, roots: seq<Root>) {
      forall k, i :: InRoots(roots, k, i) && Stuck(p, v, Ref(roots[k].xi, i)) ==>
          StuckCost(p, t, v, Ref(roots[k].xi, i))
    }

    lemma StuckBefore(roots: seq<Root>)
      requires Inv() && forall k :: 0 <= k < |roots| ==> RootOk(p, roots[k])
      ensures WereStuck(vsp, roots)
    {
      hide InvOf, ValuesOk, Stuck, StuckCost;
      forall k, i | InRoots(roots, k, i) && Stuck(p, vsp, Ref(roots[k].xi, i))
        ensures StuckCost(p, t, vsp, Ref(roots[k].xi, i))
      {
        StuckCosts(p, t, lat, Now(), snaps, Ref(roots[k].xi, i));
      }
    }

    /** First phase: values of given roots. */
    method GivenRoots(roots: seq<Root>)
      requires Inv() && stk == [] && forall k :: 0 <= k < |roots| ==> RootOk(p, roots[k])
      modifies this`have, this`mval, this`val, this`out, this`log
      ensures Inv()
    {
      hide InvOf, ValuesOk;
      for k := 0 to |roots|
        invariant Inv()
      {
        for i := roots[k].inst to roots[k].end
          invariant Inv()
        {
          if Given(p.g, roots[k].xi) {
            Supply(Ref(roots[k].xi, i));
          }
        }
      }
    }

    /** Second phase: chains of all roots, of those that do not count as done. */
    method ChainRoots(roots: seq<Root>) returns (r: Outcome)
      requires Inv() && stk == [] && forall k :: 0 <= k < |roots| ==> RootOk(p, roots[k])
      modifies this
      ensures r == Solved || r == Unsolvable || r == Cycle || r == TooDeep
      ensures r == Solved || r == Unsolvable ==> Inv() && stk == [] && old(past) <= past
      ensures r == Solved ==> UpTo(p, vsp, roots, |roots|, 0)
      ensures r == Unsolvable ==> exists k, i, s, snap :: NoChainFor(roots, k, i, s, snap)
      ensures Single(roots) && Stuck(p, old(vsp), Ref(roots[0].xi, roots[0].inst)) ==> r == Solved && vsp == old(vsp)
      ensures Single(roots) && r == Solved && !Stuck(p, old(vsp), Ref(roots[0].xi, roots[0].inst)) ==>
          Known(p, vsp, Ref(roots[0].xi, roots[0].inst))
      ensures r == Cycle ==> !Acyclic(p)
      ensures r == TooDeep ==> exists k, i :: InRoots(roots, k, i) && Deep(p, Ref(roots[k].xi, i))
    {
      hide InvOf, ValuesOk, Acyclic, Settled, Stuck, Known, UpTo, Deep, NoChainFor;
      NoneUpTo(p, vsp, roots);
      for k := 0 to |roots|
        invariant Inv() && stk == [] && UpTo(p, vsp, roots, k, 0) && old(past) <= past
        invariant k == 0 ==> vsp == old(vsp)
        invariant Single(roots) && Stuck(p, old(vsp), Ref(roots[0].xi, roots[0].inst)) ==> vsp == old(vsp)
        invariant Single(roots) && k == 1 && !Stuck(p, old(vsp), Ref(roots[0].xi, roots[0].inst)) ==>
            Known(p, vsp, Ref(roots[0].xi, roots[0].inst))
      {
        r := SolveRoot(roots, k);
        if r != Solved {
          return;
        }
      }
      r := Solved;
    }

    /** The chain phase for one root. */
    method SolveRoot(roots: seq<Root>, k: nat) returns (r: Outcome)
      requires Inv() && stk == [] && k < |roots| && RootOk(p, roots[k]) && UpTo(p, vsp, roots, k, 0)
      modifies this
      ensures r == Solved || r == Unsolvable || r == Cycle || r == TooDeep
      ensures r == Solved || r == Unsolvable ==> Inv() && stk == [] && old(past) <= past
      ensures r == Solved ==> UpTo(p, vsp, roots, k + 1, 0)
      ensures roots[k].end == roots[k].inst + 1 && Stuck(p, old(vsp), Ref(roots[k].xi, roots[k].inst)) ==>
          r == Solved && vsp == old(vsp)
      ensures roots[k].end == roots[k].inst + 1 && !Stuck(p, old(vsp), Ref(roots[k].xi, roots[k].inst)) ==>
          r == Solved ==> Known(p, vsp, Ref(roots[k].xi, roots[k].inst))
      ensures r == Unsolvable ==> exists i, s, snap :: NoChainFor(roots, k, i, s, snap)
      ensures r == Cycle ==> !Acyclic(p)
      ensures r == TooDeep ==> exists i :: InRoots(roots, k, i) && Deep(p, Ref(roots[k].xi, i))
    {
      hide InvOf, ValuesOk, Acyclic, Settled, Stuck, Known, UpTo, Deep;
      UpToStart(p, vsp, roots, k);
      for i := roots[k].inst to roots[k].end
        invariant Inv() && stk == [] && UpTo(p, vsp, roots, k, i) && old(past) <= past
        invariant i == roots[k].inst ==> vsp == old(vsp)
        invariant i == roots[k].end == roots[k].inst + 1 && !Stuck(p, old(vsp), Ref(roots[k].xi, roots[k].inst)) ==>
            Known(p, vsp, Ref(roots[k].xi, roots[k].inst))
        invariant roots[k].end == roots[k].inst + 1 && Stuck(p, old(vsp), Ref(roots[k].xi, roots[k].inst)) ==>
            vsp == old(vsp)
      {
        r := SolveInstance(roots, k, i);
        if r != Solved {
          return;
        }
      }
      UpToEnd(p, vsp, roots, k);
      r := Solved;
    }

    /** The chain phase for one instance: a variable that counts as done is left alone. */
    method SolveInstance(roots: seq<Root>, k: nat, i: nat) returns (r: Outcome)
      requires Inv() && stk == [] && k < |roots| && RootOk(p, roots[k]) && InRoots(roots, k, i)
      requires UpTo(p, vsp, roots, k, i)
      modifies this
      ensures r == Solved || r == Unsolvable || r == Cycle || r == TooDeep
      ensures r == Solved || r == Unsolvable ==> Inv() && stk == [] && old(past) <= past
      ensures r == Solved ==> UpTo(p, vsp, roots, k, i + 1)
      ensures Stuck(p, old(vsp), Ref(roots[k].xi, i)) ==> r == Solved && vsp == old(vsp)
      ensures r == Solved && !Stuck(p, old(vsp), Ref(roots[k].xi, i)) ==> Known(p, vsp, Ref(roots[k].xi, i))
      ensures r == Unsolvable ==> exists s, snap :: NoChainFor(roots, k, i, s, snap)
      ensures r == Cycle ==> !Acyclic(p)
      ensures r == TooDeep ==> Deep(p, Ref(roots[k].xi, i))
    {
      hide InvOf, ValuesOk, Acyclic, UpTo, Deep, Extends;
      var x := Ref(roots[k].xi, i);
      StoredRoot(p, t, lat, Now(), snaps, x);
      r := Solved;
      if !Given(p.g, x.idx) && !Done(vsp[x]) {
        ghost var s, snap := Now(), snaps;
        dead := set y | y in vsp && Done(vsp[y]);
        MarkDone(p, t, lat, Now().(dead := s.dead), snaps, dead);
        r := SelectChain(x);
        if r == Unsolvable {
          assert NoChainFor(roots, k, i, s, snap);
        }
        if r != Solved {
          return;
        }
        StillDone(p, t, lat, Now(), snaps);
        UpToKept(p, s.v, vsp, roots, k, i);
      }
      UpToNext(p, vsp, roots, k, i);
    }

    /** Last phase: values of all roots along their chains. */
    method ValueRoots(roots: seq<Root>) returns (r: Outcome)
      requires Inv() && stk == [] && forall k :: 0 <= k < |roots| ==> RootOk(p, roots[k])
      requires UpTo(p, vsp, roots, |roots|, 0)
      modifies this`have, this`mval, this`val, this`out, this`log
      ensures r == Solved || r == Missing
      ensures Inv() && (r == Missing ==> TooDearRoot(roots))
      ensures r == Solved ==> forall k, i :: InRoots(roots, k, i) ==> RootSolved(Ref(roots[k].xi, i))
      ensures r == Missing <==> exists k, i :: InRoots(roots, k, i) && Stuck(p, vsp, Ref(roots[k].xi, i))
      ensures Single(roots) ==> (r == Missing <==> !Known(p, vsp, Ref(roots[0].xi, roots[0].inst)))
    {
      hide InvOf, ValuesOk, Eval, StampsOk, UpTo, Known, Stuck, Settled;
      for k := 0 to |roots|
        invariant Inv()
        invariant forall j, i :: InRoots(roots, j, i) && j < k ==> Ref(roots[j].xi, i) in have
      {
        for i := roots[k].inst to roots[k].end
          invariant Inv()
          invariant forall j, i :: InRoots(roots, j, i) && j < k ==> Ref(roots[j].xi, i) in have
          invariant forall j :: roots[k].inst <= j < i ==> Ref(roots[k].xi, j) in have
        {
          assert InRoots(roots, k, i);
          r := ValueInstance(roots, k, i);
          if r != Solved {
            NotKnownYet(roots, k, i);
            assert DearRoot(Ref(roots[k].xi, i));
            return;
          }
        }
      }
      forall k, i | InRoots(roots, k, i)
        ensures RootSolved(Ref(roots[k].xi, i)) && !Stuck(p, vsp, Ref(roots[k].xi, i))
      {
        SolvedRoot(p, t, lat, Now(), snaps, stamp, Vals(), Ref(roots[k].xi, i));
        KnownNotStuck(p, vsp, Ref(roots[k].xi, i));
      }
      if Single(roots) {
        assert InRoots(roots, 0, roots[0].inst);
      }
      r := Solved;
    }

    method ValueInstance(roots: seq<Root>, k: nat, i: nat) returns (r: Outcome)
      requires Inv() && stk == [] && InRoots(roots, k, i) && RootOk(p, roots[k]) && UpTo(p, vsp, roots, |roots|, 0)
      modifies this`have, this`mval, this`val, this`out, this`log
      ensures r == Solved || r == Missing
      ensures Inv() && (r == Solved ==> old(have) + {Ref(roots[k].xi, i)} <= have)
      ensures r == Missing ==> Stuck(p, vsp, Ref(roots[k].xi, i)) && !Known(p, vsp, Ref(roots[k].xi, i))
      ensures r == Missing ==> DearRoot(Ref(roots[k].xi, i))
    {
      hide InvOf, ValuesOk, Eval, StampsOk;
      var x := Ref(roots[k].xi, i);
      StoredRoot(p, t, lat, Now(), snaps, x);
      if x !in have {
        if !Given(p.g, x.idx) && vsp[x].st.NoChain? {
          StuckCosts(p, t, lat, Now(), snaps, x);
          return Missing;
        }
        Supply(x);
      }
      r := Solved;
    }

    lemma NotKnownYet(roots: seq<Root>, k: int, i: int)
      requires InRoots(roots, k, i) && !Known(p, vsp, Ref(roots[k].xi, i))
      ensures Single(roots) ==> Ref(roots[k].xi, i) == Ref(roots[0].xi, roots[0].inst)
    {
    }
  }

  /** On problems whose dependencies are ranked and not too deep, the search always has an answer. */
  method SelectShallow(s: ChainSolver, root: Ref, ghost rankV: Ref -> nat, ghost rankM: Ref -> nat, ghost edges: nat)
      returns (r: Outcome)
    requires s.Inv() && s.stk == [] && IsVar(s.p, root) && !Given(s.p.g, root.idx) && !Chained(s.vsp, root)
    requires WellFormed(s.p) && Ranked(s.p, rankV, rankM) && rankV(root) / 2 + 1 < MAX_STK
    requires forall x: Ref :: IsVar(s.p, x) ==> NumEdges(s.p, x) <= edges
    requires (rankV(root) / 2 + 1) * edges < MAX_CANDSTK
    modifies s
    ensures s.Inv() && s.stk == []
    ensures r == (if Le(s.t.v(root), Fin(MAX_COST)) then Solved else Unsolvable)
    ensures r == Solved ==> Chained(s.vsp, root) && s.vsp[root].cost == s.t.v(root)
  {
    hide InvOf, ValuesOk, WellFormed, Ranked, Deep, Extends, ChainSolver.Inv;
    ShallowFits(s.p, rankV, rankM, root, edges);
    r := s.SelectChain(root);
  }

  /** The root is within the limit, and on a ranked graph not too deep. */
  ghost predicate Fits(p: Problem, t: Truth, rankV: Ref -> nat, edges: nat, x: Ref) {
    && (Given(p.g, x.idx) || Lt(t.v(x), Fin(MAX_COST)))
    && rankV(x) / 2 + 1 < MAX_STK && (rankV(x) / 2 + 1) * edges < MAX_CANDSTK
  }

  /** A batch of cheap and shallow roots is always solved. */
  method SolveShallow(s: ChainSolver, roots: seq<Root>, ghost rankV: Ref -> nat, ghost rankM: Ref -> nat,
      ghost edges: nat) returns (r: Outcome)
    requires s.Inv() && s.stk == [] && WellFormed(s.p) && Ranked(s.p, rankV, rankM)
    requires forall k :: 0 <= k < |roots| ==> RootOk(s.p, roots[k])
    requires forall x: Ref :: IsVar(s.p, x) ==> NumEdges(s.p, x) <= edges
    requires forall k, i :: InRoots(roots, k, i) ==> Fits(s.p, s.t, rankV, edges, Ref(roots[k].xi, i))
    modifies s
    ensures r == Solved && s.Inv() && s.stk == []
    ensures forall k, i :: InRoots(roots, k, i) ==> s.RootSolved(Ref(roots[k].xi, i))
  {
    hide InvOf, ValuesOk, WellFormed, Ranked, Deep, Stuck, ChainSolver.Inv, ChainSolver.RootSolved;
    forall k, i | InRoots(roots, k, i)
      ensures !Deep(s.p, Ref(roots[k].xi, i)) && !s.DearRoot(Ref(roots[k].xi, i))
    {
      assert Fits(s.p, s.t, rankV, edges, Ref(roots[k].xi, i));
      ShallowFits(s.p, rankV, rankM, Ref(roots[k].xi, i), edges);
    }
    r := s.Solve(roots);
  }
}
