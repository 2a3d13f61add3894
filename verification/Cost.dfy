/** Exact costs: nonnegative reals extended with infinity, as the fhk solver and pruner
    use them (`float` with `INFINITY`, rounding left aside). */
module Costs {

  datatype Cost = Fin(r: real) | Inf

  /** `FLT_MAX`: no chain above this cost is accepted. */
  const MAX_COST: real := 340282346638528859811704183484516925440.0

  /** The float 0x80800000 (-2^-126) that marks a variable on the work stack. */
  const SP_MARK: real := -1.0 / 85070591730234615865843651857942052864.0

  predicate Le(a: Cost, b: Cost) {
    b.Inf? || (a.Fin? && a.r <= b.r)
  }

  predicate Lt(a: Cost, b: Cost) {
    !Le(b, a)
  }

  function Add(a: Cost, b: Cost): Cost {
    if a.Fin? && b.Fin? then Fin(a.r + b.r) else Inf
  }

  function Max(a: Cost, b: Cost): Cost {
    if Le(a, b) then b else a
  }

  function Min(a: Cost, b: Cost): Cost {
    if Le(a, b) then a else b
  }

  /** `b`, added up `k` times. */
  function Multiple(k: nat, b: real): real {
    if k == 0 then 0.0 else Multiple(k - 1, b) + b
  }

  /** `costf`: the cost `k + c*S` of a model with inverse cost `S`. */
  function Costf(k: real, c: real, s: Cost): Cost {
    if s.Inf? then Inf else Fin(k + c * s.r)
  }

  /** `costf_invS`, from the inverse coefficients `ki = -k/c` and `ci = 1/c` of the graph builder. */
  function InvS(k: real, c: real, cost: real): real
    requires c >= 1.0
  {
    -k / c + (1.0 / c) * cost
  }

  lemma MulMono(c: real, a: real, b: real)
    requires c >= 0.0 && a <= b
    ensures c * a <= c * b
  {
    assert c * (b - a) >= 0.0;
  }

  lemma MulMonoStrict(c: real, a: real, b: real)
    requires c > 0.0 && a < b
    ensures c * a < c * b
  {
    assert c * (b - a) > 0.0;
  }

  lemma MulAtLeast(c: real, a: real)
    requires c >= 1.0 && a >= 0.0
    ensures c * a >= a
  {
    assert (c - 1.0) * a >= 0.0;
  }

  /** `costf_invS` is the exact threshold on `S`: staying at or below it is the same as
      keeping the model's cost at or below `cost`. */
  lemma InvSExact(k: real, c: real, cost: real, s: real)
    requires c >= 1.0
    ensures s <= InvS(k, c, cost) <==> k + c * s <= cost
  {
    var q := InvS(k, c, cost);
    assert c * (-k / c) == -k;
    assert c * (1.0 / c) == 1.0;
    assert c * ((1.0 / c) * cost) == (c * (1.0 / c)) * cost;
    assert c * q == c * (-k / c) + c * ((1.0 / c) * cost);
    assert k + c * q == cost;
    if s <= q {
      MulMono(c, s, q);
    } else {
      MulMonoStrict(c, q, s);
    }
  }

  lemma CostfMono(k: real, c: real, s: Cost, t: Cost)
    requires c >= 1.0 && Le(s, t)
    ensures Le(Costf(k, c, s), Costf(k, c, t))
  {
    if t.Fin? {
      MulMono(c, s.r, t.r);
    }
  }

  /** Model costs are superior functions: never below `k + S`. */
  lemma CostfAtLeast(k: real, c: real, s: Cost)
    requires c >= 1.0 && Le(Fin(0.0), s)
    ensures Le(Add(Fin(k), s), Costf(k, c, s))
  {
    if s.Fin? {
      MulAtLeast(c, s.r);
    }
  }

  /** The threshold on `S` is exact for costs with infinity, too. */
  lemma CostfAbove(k: real, c: real, beta: real, s: Cost)
    requires c >= 1.0
    ensures Lt(Fin(InvS(k, c, beta)), s) <==> Lt(Fin(beta), Costf(k, c, s))
  {
    if s.Fin? {
      InvSExact(k, c, beta, s.r);
    }
  }
}
