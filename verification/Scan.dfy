/** Which candidate the solver takes: the first of the cheapest, with the cheapest of the others as its limit. */
module Scans {
  import opened Costs
  import opened Graphs
  import opened SolverState

  predicate Spot(cands: seq<Cand>, mm: ModMap, e: nat, k: nat) {
    e < |cands| && k < |cands[e].insts| && Ref(cands[e].mi, cands[e].insts[k]) in mm
  }

  function CostAt(cands: seq<Cand>, mm: ModMap, e: nat, k: nat): Cost
    requires Spot(cands, mm, e, k)
  {
    mm[Ref(cands[e].mi, cands[e].insts[k])].cost
  }

  predicate Before(e: nat, k: nat, d: nat, j: nat) {
    e < d || (e == d && k < j)
  }

  /** Among the places before `(ci, i)`, `(d, j)` is the first that costs `cost`, none costs less, and `mbeta` is the
      least of `beta` and what the others cost. */
  ghost predicate Scanned(cands: seq<Cand>, mm: ModMap, ci: nat, i: nat, beta: real, cost: Cost, mbeta: real, d: nat,
      j: nat)
  {
    if cost.Inf? then
      mbeta == beta && forall e: nat, k: nat :: Spot(cands, mm, e, k) && Before(e, k, ci, i) ==>
          CostAt(cands, mm, e, k).Inf?
    else
      && Spot(cands, mm, d, j) && Before(d, j, ci, i) && CostAt(cands, mm, d, j) == cost && mbeta <= beta
      && (forall e: nat, k: nat :: Spot(cands, mm, e, k) && Before(e, k, ci, i) ==>
            && Le(cost, CostAt(cands, mm, e, k))
            && (Before(e, k, d, j) ==> Lt(cost, CostAt(cands, mm, e, k)))
            && ((e, k) != (d, j) ==> Le(Fin(mbeta), CostAt(cands, mm, e, k))))
      && (mbeta == beta || exists e: nat, k: nat :: Limiting(cands, mm, ci, i, mbeta, d, j, e, k))
  }

  predicate Limiting(cands: seq<Cand>, mm: ModMap, ci: nat, i: nat, mbeta: real, d: nat, j: nat, e: nat, k: nat) {
    && Spot(cands, mm, e, k) && Before(e, k, ci, i) && (e, k) != (d, j)
    && CostAt(cands, mm, e, k) == Fin(mbeta)
  }

  /** All places have been looked at. */
  ghost predicate Taken(cands: seq<Cand>, mm: ModMap, beta: real, cost: Cost, mbeta: real, ei: nat, m: Ref) {
    exists d: nat, j: nat :: TakenAt(cands, mm, beta, cost, mbeta, ei, m, d, j)
  }

  ghost predicate TakenAt(cands: seq<Cand>, mm: ModMap, beta: real, cost: Cost, mbeta: real, ei: nat, m: Ref, d: nat,
      j: nat)
  {
    && Scanned(cands, mm, |cands|, 0, beta, cost, mbeta, d, j)
    && (cost.Fin? ==> d < |cands| && j < |cands[d].insts| && ei == cands[d].ei
                      && m == Ref(cands[d].mi, cands[d].insts[j]))
  }

  /** One more place. */
  lemma ScanOne(cands: seq<Cand>, mm: ModMap, ci: nat, i: nat, beta: real, cost: Cost, mbeta: real, d: nat, j: nat)
    requires Scanned(cands, mm, ci, i, beta, cost, mbeta, d, j) && Spot(cands, mm, ci, i)
    ensures var now := CostAt(cands, mm, ci, i);
            var second := Max(cost, now);
            var mbeta' := if second.Fin? && second.r < mbeta then second.r else mbeta;
            if Lt(now, cost) then Scanned(cands, mm, ci, i + 1, beta, now, mbeta', ci, i)
            else Scanned(cands, mm, ci, i + 1, beta, cost, mbeta', d, j)
  {
    var now := CostAt(cands, mm, ci, i);
    var second := Max(cost, now);
    var mbeta' := if second.Fin? && second.r < mbeta then second.r else mbeta;
    assert forall e: nat, k: nat :: Before(e, k, ci, i + 1) <==> Before(e, k, ci, i) || (e, k) == (ci, i);
    var d', j' := if Lt(now, cost) then ci else d, if Lt(now, cost) then i else j;
    if mbeta' != mbeta {
      if Lt(now, cost) {
        assert Limiting(cands, mm, ci, i + 1, mbeta', d', j', d, j);
      } else {
        assert Limiting(cands, mm, ci, i + 1, mbeta', d', j', ci, i);
      }
    } else if mbeta != beta {
      var e: nat, k: nat :| Limiting(cands, mm, ci, i, mbeta, d, j, e, k);
      assert Limiting(cands, mm, ci, i + 1, mbeta', d', j', e, k);
    }
  }

  lemma ScanRow(cands: seq<Cand>, mm: ModMap, ci: nat, beta: real, cost: Cost, mbeta: real, d: nat, j: nat)
    requires ci < |cands| && Scanned(cands, mm, ci, |cands[ci].insts|, beta, cost, mbeta, d, j)
    ensures Scanned(cands, mm, ci + 1, 0, beta, cost, mbeta, d, j)
  {
    forall e: nat, k: nat | Spot(cands, mm, e, k) && Before(e, k, ci + 1, 0)
      ensures Before(e, k, ci, |cands[ci].insts|)
    {
    }
    if cost.Fin? && mbeta != beta {
      var e: nat, k: nat :| Limiting(cands, mm, ci, |cands[ci].insts|, mbeta, d, j, e, k);
      assert Limiting(cands, mm, ci + 1, 0, mbeta, d, j, e, k);
    }
  }
}
