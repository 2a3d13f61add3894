/** How many frames control code needs: the branch points that can be open at the same time. */
module Nestings {
  import opened Controls

  /** Branch points on the deepest path through a tree. */
  function Branching(n: Node): nat
    decreases n, 0
  {
    match n
    case All(es) => BranchingSum(es, 0)
    case Any(es) => if |es| < 2 then BranchingMax(es) else 1 + BranchingMax(es)
    case _ => 0
  }

  /** Edges from `i` on, one after the other. */
  function BranchingSum(es: seq<Node>, i: nat): nat
    requires i <= |es|
    decreases es, |es| - i, 0
  {
    if i == |es| then 0 else Branching(es[i]) + BranchingSum(es, i + 1)
  }

  function BranchingMax(es: seq<Node>): (r: nat)
    ensures forall i :: 0 <= i < |es| ==> Branching(es[i]) <= r
    decreases es, 0
  {
    if es == [] then 0
    else
      var a, b := Branching(es[0]), BranchingMax(es[1..]);
      assert forall i :: 0 < i < |es| ==> es[i] == es[1..][i - 1];
      if a >= b then a else b
  }

  /** Branch points on the deepest path through code. */
  function Nest(c: Code): nat
    decreases c, 0
  {
    match c
    case CChainPrim(f, next) => Nest(next)
    case CChainCall(call, next) => Nest(call) + Nest(next)
    case CAny(alts) => 1 + NestMax(alts)
    case _ => 0
  }

  function NestMax(cs: seq<Code>): nat
    decreases cs, 0
  {
    if cs == [] then 0
    else
      var a, b := Nest(cs[0]), NestMax(cs[1..]);
      if a >= b then a else b
  }

  function NestSum(cs: seq<Code>): nat {
    if cs == [] then 0 else Nest(cs[0]) + NestSum(cs[1..])
  }

  /** Code that never runs into the bottom of the call stack. */
  predicate Sound(c: Code)
    decreases c, 0
  {
    match c
    case CUnderflow => false
    case CChainPrim(f, next) => Sound(next)
    case CChainCall(call, next) => Sound(call) && Sound(next)
    case CAny(alts) => forall i :: 0 <= i < |alts| ==> Sound(alts[i])
    case _ => true
  }

  predicate Sounds(cs: seq<Code>) {
    forall i :: 0 <= i < |cs| ==> Sound(cs[i])
  }

  lemma {:induction false} NestIn(cs: seq<Code>, i: nat)
    requires i < |cs|
    ensures Nest(cs[i]) <= NestMax(cs)
  {
    if i > 0 {
      NestIn(cs[1..], i - 1);
    }
  }

  lemma NestCons(c: Code, ks: seq<Code>)
    ensures NestSum([c] + ks) == Nest(c) + NestSum(ks) && (Sounds([c] + ks) <==> Sound(c) && Sounds(ks))
  {
    assert ([c] + ks)[1..] == ks && ([c] + ks)[0] == c;
    assert forall i :: 0 <= i < |ks| ==> ([c] + ks)[i + 1] == ks[i];
  }

  // ---------- compiled code ----------

  lemma {:induction false} EmitNests(n: Node)
    ensures Nest(Emit(n)) <= Branching(n) && Sound(Emit(n))
    decreases n, 0
  {
    match n
    case Prim(f) =>
    case Nothing =>
    case Exit =>
    case All(es) => ChainNests(es, 0);
    case Any(es) =>
      forall i | 0 <= i < |es|
        ensures Nest(Emit(es[i])) <= BranchingMax(es) && Sound(Emit(es[i]))
      {
        EmitNests(es[i]);
      }
      if |es| > 1 {
        AllNest(Emits(es), BranchingMax(es));
      }
  }

  lemma {:induction false} AllNest(cs: seq<Code>, n: nat)
    requires forall i :: 0 <= i < |cs| ==> Nest(cs[i]) <= n
    ensures NestMax(cs) <= n
  {
    if cs != [] {
      AllNest(cs[1..], n);
    }
  }

  lemma {:induction false} ChainNests(es: seq<Node>, i: nat)
    requires i <= |es|
    ensures Nest(EmitAll(es, i)) <= BranchingSum(es, i) && Sound(EmitAll(es, i))
    decreases es, |es| - i, 0
  {
    if i < |es| {
      EmitNests(es[i]);
      ChainNests(es, i + 1);
    }
  }
}
