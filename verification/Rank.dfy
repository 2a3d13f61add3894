/** Ranks from costs: how many variables are cheaper, and room for another order among equals. */
module Ranks {
  import opened Costs
  import opened Graphs

  /** Variables that cost less than `x`. */
  ghost function CheaperThan(p: Problem, t: Truth, xs: set<Ref>, x: Ref): set<Ref> {
    set y | y in xs && Lt(t.v(y), t.v(x))
  }

  lemma FewerCheaper(p: Problem, t: Truth, xs: set<Ref>, x: Ref, y: Ref)
    requires y in xs && Lt(t.v(y), t.v(x))
    ensures |CheaperThan(p, t, xs, y)| < |CheaperThan(p, t, xs, x)|
  {
    var a, b := CheaperThan(p, t, xs, y), CheaperThan(p, t, xs, x);
    assert a <= b && y in b && y !in a;
    assert a <= b - {y};
    assert |b - {y}| == |b| - 1;
    SubsetSize(a, b - {y});
  }

  lemma {:induction false} SubsetSize<T>(a: set<T>, b: set<T>)
    requires a <= b
    ensures |a| <= |b|
  {
    assert b == a + (b - a);
  }

  function Product(a: nat, b: nat): nat {
    a * b
  }

  lemma ManyTimes(a: nat, b: nat, c: nat)
    requires a < b
    ensures Product(a, c) + c <= Product(b, c)
  {
    assert (b - a - 1) * c >= 0;
  }
}
