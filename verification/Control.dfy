/** The control compiler: trees of all, any and primitives, the code made of them, and why that code means the same. */
module Controls {
  import opened Sims

  /** A control tree. `Nothing` and `Exit` are the two predefined leaves; a primitive is a number. */
  datatype Node = Prim(f: nat) | All(edges: seq<Node>) | Any(edges: seq<Node>) | Nothing | Exit

  /** Compiled code: what the generated functions close over. */
  datatype Code = CNothing | CExit | CUnderflow | CPrim(f: nat) | CChainPrim(f: nat, next: Code)
    | CChainCall(call: Code, next: Code) | CAny(alts: seq<Code>)

  /** What a primitive does: cut its path or not, and what it leaves on the stack. */
  datatype Effect = Effect(go: bool, after: seq<Byte>)

  type World = (nat, seq<Byte>) -> Effect

  /** A primitive was called in this state. */
  datatype Event = Event(f: nat, before: seq<Byte>)

  // ---------- sizes ----------

  function Size(n: Node): (r: nat)
    ensures r >= 1
  {
    match n
    case All(es) => 1 + Sizes(es)
    case Any(es) => 1 + Sizes(es)
    case _ => 1
  }

  function Sizes(ns: seq<Node>): nat {
    if ns == [] then 0 else Size(ns[0]) + Sizes(ns[1..])
  }

  lemma {:induction false} SizesAppend(a: seq<Node>, b: seq<Node>)
    ensures Sizes(a + b) == Sizes(a) + Sizes(b)
  {
    if a == [] {
      assert a + b == b;
    } else {
      assert (a + b)[1..] == a[1..] + b;
      SizesAppend(a[1..], b);
    }
  }

  lemma {:induction false} SizesIn(ns: seq<Node>, i: nat)
    requires i < |ns|
    ensures Size(ns[i]) <= Sizes(ns)
  {
    if i > 0 {
      SizesIn(ns[1..], i - 1);
    }
  }

  function Weight(c: Code): (r: nat)
    ensures r >= 1
  {
    match c
    case CChainPrim(f, next) => 1 + Weight(next)
    case CChainCall(call, next) => 1 + Weight(call) + Weight(next)
    case CAny(alts) => 1 + Weights(alts)
    case _ => 1
  }

  function Weights(cs: seq<Code>): nat {
    if cs == [] then 0 else Weight(cs[0]) + Weights(cs[1..])
  }

  lemma {:induction false} WeightsIn(cs: seq<Code>, i: nat)
    requires i < |cs|
    ensures Weight(cs[i]) <= Weights(cs)
  {
    if i > 0 {
      WeightsIn(cs[1..], i - 1);
    }
  }

  lemma WeightUnfolds(cs: seq<Code>)
    requires cs != []
    ensures Weights(cs) == Weight(cs[0]) + Weights(cs[1..])
    ensures cs[0].CChainPrim? ==> Weight(cs[0]) == 1 + Weight(cs[0].next)
    ensures cs[0].CChainCall? ==> Weight(cs[0]) == 1 + Weight(cs[0].call) + Weight(cs[0].next)
    ensures cs[0].CAny? ==> Weight(cs[0]) == 1 + Weights(cs[0].alts)
  {
  }

  lemma OneWeight(c: Code, ks: seq<Code>)
    ensures Weights([c] + ks) == Weight(c) + Weights(ks)
  {
    assert ([c] + ks)[1..] == ks;
  }

  lemma TwoWeights(c: Code, d: Code, ks: seq<Code>)
    ensures Weights([c, d] + ks) == Weight(c) + Weight(d) + Weights(ks)
  {
    assert ([c, d] + ks)[1..] == [d] + ks;
    OneWeight(d, ks);
  }

  // ---------- the meaning of a tree ----------

  /** Depth-first: the primitives called when the list `ns` is still to be done in state `s`. */
  ghost function Meaning(w: World, ns: seq<Node>, s: seq<Byte>): seq<Event>
    decreases Sizes(ns), 0
  {
    if ns == [] then []
    else
      assert Sizes(ns) == Size(ns[0]) + Sizes(ns[1..]);
      match ns[0]
      case Prim(f) => [Event(f, s)] + (if w(f, s).go then Meaning(w, ns[1..], w(f, s).after) else [])
      case All(es) => SizesAppend(es, ns[1..]); assert Size(ns[0]) == 1 + Sizes(es); Meaning(w, es + ns[1..], s)
      case Any(es) => assert Size(ns[0]) == 1 + Sizes(es); Alternatives(w, es, ns[1..], s, |es|)
      case Nothing => Meaning(w, ns[1..], s)
      case Exit => []
  }

  /** The first `i` alternatives, one after the other, each from the same state. */
  ghost function Alternatives(w: World, es: seq<Node>, ks: seq<Node>, s: seq<Byte>, i: nat): seq<Event>
    requires i <= |es|
    decreases Sizes(es) + Sizes(ks), 1, i
  {
    if i == 0 then []
    else
      SizesIn(es, i - 1);
      Alternatives(w, es, ks, s, i - 1) + AlternativeOf(w, es, ks, s, i - 1)
  }

  ghost function AlternativeOf(w: World, es: seq<Node>, ks: seq<Node>, s: seq<Byte>, i: nat): seq<Event>
    requires i < |es|
    decreases Sizes(es) + Sizes(ks), 1, 0
  {
    SizesIn(es, i);
    assert ([es[i]] + ks)[1..] == ks;
    Meaning(w, [es[i]] + ks, s)
  }

  // ---------- the meaning of code ----------

  /** The primitives called when the codes `cs` run one after the other, each as the continuation of the last. */
  ghost function Running(w: World, cs: seq<Code>, s: seq<Byte>): seq<Event>
    decreases Weights(cs), 0
  {
    if cs == [] then []
    else
      WeightUnfolds(cs);
      match cs[0]
      case CNothing => Running(w, cs[1..], s)
      case CExit => []
      case CUnderflow => []
      case CPrim(f) => [Event(f, s)] + (if w(f, s).go then Running(w, cs[1..], w(f, s).after) else [])
      case CChainPrim(f, next) =>
        [Event(f, s)] + (if w(f, s).go then Continue(w, next, cs[1..], w(f, s).after) else [])
      case CChainCall(call, next) =>
        TwoWeights(call, next, cs[1..]);
        Running(w, [call, next] + cs[1..], s)
      case CAny(alts) => Branches(w, alts, cs[1..], s, |alts|)
  }

  /** `c` with the continuation `ks`. */
  ghost function Continue(w: World, c: Code, ks: seq<Code>, s: seq<Byte>): seq<Event>
    decreases Weight(c) + Weights(ks), 1
  {
    OneWeight(c, ks);
    Running(w, [c] + ks, s)
  }

  ghost function Branches(w: World, alts: seq<Code>, ks: seq<Code>, s: seq<Byte>, i: nat): seq<Event>
    requires i <= |alts|
    decreases Weights(alts) + Weights(ks), 2, i
  {
    if i == 0 then []
    else
      WeightsIn(alts, i - 1);
      Branches(w, alts, ks, s, i - 1) + Continue(w, alts[i - 1], ks, s)
  }

  // ---------- the compiler ----------

  /** `compile_node`, on finite trees. */
  function Emit(n: Node): Code
    decreases n, 0
  {
    match n
    case Prim(f) => CPrim(f)
    case All(es) => EmitAll(es, 0)
    case Any(es) =>
      if |es| == 0 then CExit
      else if |es| == 1 then Emit(es[0])
      else CAny(Emits(es))
    case Nothing => CNothing
    case Exit => CExit
  }

  function Emits(ns: seq<Node>): (cs: seq<Code>)
    ensures |cs| == |ns| && forall i :: 0 <= i < |ns| ==> cs[i] == Emit(ns[i])
    decreases ns, 0
  {
    if ns == [] then [] else [Emit(ns[0])] + Emits(ns[1..])
  }

  /** Whether there is anything but `nothing` from edge `i` on. */
  predicate HasChain(es: seq<Node>, i: nat)
    requires i <= |es|
    decreases |es| - i
  {
    i < |es| && (!es[i].Nothing? || HasChain(es, i + 1))
  }

  /** `emit_all` and `emit_chain`: the edges from `i` on, with `nothing` left out. */
  function EmitAll(es: seq<Node>, i: nat): Code
    requires i <= |es|
    decreases es, |es| - i, 0
  {
    if i == |es| then CNothing
    else if es[i].Nothing? then EmitAll(es, i + 1)
    else if !HasChain(es, i + 1) then Emit(es[i])
    else if es[i].Prim? then CChainPrim(es[i].f, EmitAll(es, i + 1))
    else CChainCall(Emit(es[i]), EmitAll(es, i + 1))
  }

  // ---------- compilation preserves meaning ----------

  /** Continuations that do the same in every state. */
  ghost predicate Same(w: World, a: seq<Code>, b: seq<Code>) {
    forall s :: Running(w, a, s) == Running(w, b, s)
  }

  lemma {:induction false} SameAfter(w: World, cs: seq<Code>, a: seq<Code>, b: seq<Code>, s: seq<Byte>)
    requires Same(w, a, b)
    ensures Running(w, cs + a, s) == Running(w, cs + b, s)
    decreases Weights(cs), 0
  {
    if cs == [] {
      assert cs + a == a && cs + b == b;
    } else {
      var r := cs[1..];
      assert (cs + a)[1..] == r + a && (cs + b)[1..] == r + b;
      WeightUnfolds(cs);
      match cs[0]
      case CNothing => SameAfter(w, r, a, b, s);
      case CExit =>
      case CUnderflow =>
      case CPrim(f) => SameAfter(w, r, a, b, w(f, s).after);
      case CChainPrim(f, next) =>
        assert [next] + (r + a) == ([next] + r) + a && [next] + (r + b) == ([next] + r) + b;
        OneWeight(next, r);
        SameAfter(w, [next] + r, a, b, w(f, s).after);
      case CChainCall(call, next) =>
        assert [call, next] + (r + a) == ([call, next] + r) + a && [call, next] + (r + b) == ([call, next] + r) + b;
        TwoWeights(call, next, r);
        SameAfter(w, [call, next] + r, a, b, s);
      case CAny(alts) => SameBranches(w, alts, r, a, b, s, |alts|);
    }
  }

  lemma {:induction false} SameBranches(w: World, alts: seq<Code>, r: seq<Code>, a: seq<Code>, b: seq<Code>,
      s: seq<Byte>, i: nat)
    requires Same(w, a, b) && i <= |alts|
    ensures Branches(w, alts, r + a, s, i) == Branches(w, alts, r + b, s, i)
    decreases Weights(alts) + Weights(r), 1, i
  {
    if i > 0 {
      SameBranches(w, alts, r, a, b, s, i - 1);
      WeightsIn(alts, i - 1);
      assert [alts[i - 1]] + (r + a) == ([alts[i - 1]] + r) + a && [alts[i - 1]] + (r + b) == ([alts[i - 1]] + r) + b;
      OneWeight(alts[i - 1], r);
      SameAfter(w, [alts[i - 1]] + r, a, b, s);
    }
  }

  lemma EmitsAppend(a: seq<Node>, b: seq<Node>)
    ensures Emits(a + b) == Emits(a) + Emits(b)
  {
  }

  /** Edges that are all `nothing` do nothing. */
  lemma {:induction false} NothingLeft(w: World, es: seq<Node>, i: nat, ks: seq<Code>, s: seq<Byte>)
    requires i <= |es| && !HasChain(es, i)
    ensures Running(w, Emits(es[i..]) + ks, s) == Running(w, ks, s)
    decreases |es| - i
  {
    if i == |es| {
      assert Emits(es[i..]) + ks == ks;
    } else {
      NothingLeft(w, es, i + 1, ks, s);
      EmitsFrom(es, i, ks);
    }
  }

  lemma EmitsFrom(es: seq<Node>, i: nat, ks: seq<Code>)
    requires i < |es|
    ensures Emits(es[i..]) + ks == [Emit(es[i])] + (Emits(es[i + 1..]) + ks)
    ensures (Emits(es[i..]) + ks)[1..] == Emits(es[i + 1..]) + ks
  {
    assert es[i..][1..] == es[i + 1..];
  }

  /** The code chain of an `all` does what its edges do one after the other. */
  lemma {:induction false} ChainMeaning(w: World, es: seq<Node>, i: nat, ks: seq<Code>, s: seq<Byte>)
    requires i <= |es|
    ensures Running(w, [EmitAll(es, i)] + ks, s) == Running(w, Emits(es[i..]) + ks, s)
    decreases |es| - i
  {
    if i == |es| {
      assert ([CNothing] + ks)[1..] == ks;
      assert Emits(es[i..]) + ks == ks;
    } else {
      EmitsFrom(es, i, ks);
      var rest := Emits(es[i + 1..]) + ks;
      if es[i].Nothing? {
        ChainMeaning(w, es, i + 1, ks, s);
      } else if !HasChain(es, i + 1) {
        forall s' ensures Running(w, ks, s') == Running(w, rest, s') {
          NothingLeft(w, es, i + 1, ks, s');
        }
        SameAfter(w, [Emit(es[i])], ks, rest, s);
      } else {
        ChainStep(w, es, i, ks, s);
      }
    }
  }

  lemma {:induction false} ChainStep(w: World, es: seq<Node>, i: nat, ks: seq<Code>, s: seq<Byte>)
    requires i < |es| && !es[i].Nothing? && HasChain(es, i + 1)
    ensures Running(w, [EmitAll(es, i)] + ks, s) == Running(w, [Emit(es[i])] + (Emits(es[i + 1..]) + ks), s)
    decreases |es| - i, 0
  {
    var next, rest := EmitAll(es, i + 1), Emits(es[i + 1..]) + ks;
    forall s' ensures Running(w, [next] + ks, s') == Running(w, rest, s') {
      ChainMeaning(w, es, i + 1, ks, s');
    }
    if es[i].Prim? {
      assert ([CPrim(es[i].f)] + rest)[1..] == rest;
      assert ([CChainPrim(es[i].f, next)] + ks)[1..] == ks;
    } else {
      assert ([CChainCall(Emit(es[i]), next)] + ks)[1..] == ks;
      assert [Emit(es[i]), next] + ks == [Emit(es[i])] + ([next] + ks);
      SameAfter(w, [Emit(es[i])], [next] + ks, rest, s);
    }
  }

  lemma ConsEmits(n: Node, ns: seq<Node>)
    ensures Emits([n] + ns) + [CExit] == [Emit(n)] + (Emits(ns) + [CExit])
  {
    assert ([n] + ns)[1..] == ns;
  }

  /** Compiled code calls the primitives that the tree means, in the same states and the same order. */
  lemma {:induction false} CompilationPreserves(w: World, ns: seq<Node>, s: seq<Byte>)
    ensures Running(w, Emits(ns) + [CExit], s) == Meaning(w, ns, s)
    decreases Sizes(ns), 0
  {
    if ns == [] {
      assert Emits(ns) + [CExit] == [CExit];
    } else {
      var n, r := ns[0], ns[1..];
      assert ns == [n] + r;
      ConsEmits(n, r);
      var cs := Emits(r) + [CExit];
      assert ([Emit(n)] + cs)[1..] == cs;
      assert Sizes(ns) == Size(n) + Sizes(r);
      match n
      case Prim(f) => CompilationPreserves(w, r, w(f, s).after);
      case Nothing => CompilationPreserves(w, r, s);
      case Exit =>
      case All(es) =>
        assert Size(n) == 1 + Sizes(es);
        ChainMeaning(w, es, 0, cs, s);
        assert es[0..] == es;
        EmitsAppend(es, r);
        assert Emits(es) + cs == Emits(es + r) + [CExit];
        SizesAppend(es, r);
        CompilationPreserves(w, es + r, s);
      case Any(es) =>
        assert Size(n) == 1 + Sizes(es);
        AnyPreserves(w, es, r, s);
    }
  }

  lemma {:induction false} AnyPreserves(w: World, es: seq<Node>, r: seq<Node>, s: seq<Byte>)
    ensures Running(w, [Emit(Any(es))] + (Emits(r) + [CExit]), s) == Alternatives(w, es, r, s, |es|)
    decreases Sizes(es) + Sizes(r), 2
  {
    var cs := Emits(r) + [CExit];
    assert ([Emit(Any(es))] + cs)[1..] == cs;
    if |es| == 1 {
      AlternativePreserves(w, es, r, s, 0);
      assert Alternatives(w, es, r, s, 0) == [];
    } else if |es| > 1 {
      BranchesPreserve(w, es, r, s, |es|);
    }
  }

  lemma {:induction false} AlternativePreserves(w: World, es: seq<Node>, r: seq<Node>, s: seq<Byte>, i: nat)
    requires i < |es|
    ensures Running(w, [Emit(es[i])] + (Emits(r) + [CExit]), s) == AlternativeOf(w, es, r, s, i)
    decreases Sizes(es) + Sizes(r), 1, 0
  {
    SizesIn(es, i);
    assert ([es[i]] + r)[1..] == r;
    ConsEmits(es[i], r);
    CompilationPreserves(w, [es[i]] + r, s);
  }

  lemma {:induction false} BranchesPreserve(w: World, es: seq<Node>, r: seq<Node>, s: seq<Byte>, i: nat)
    requires i <= |es|
    ensures Branches(w, Emits(es), Emits(r) + [CExit], s, i) == Alternatives(w, es, r, s, i)
    decreases Sizes(es) + Sizes(r), 1, i
  {
    if i > 0 {
      BranchesPreserve(w, es, r, s, i - 1);
      AlternativePreserves(w, es, r, s, i - 1);
    }
  }

  lemma AnyEmits(es: seq<Node>)
    requires |es| > 1
    ensures Emit(Any(es)) == CAny(Emits(es))
  {
  }

  // ---------- the compiler as it runs ----------

  /** `compile` with its table of nodes that have been compiled already. */
  class Compiler {
    var emitted: map<Node, Code>

    constructor ()
      ensures Valid()
    {
      emitted := map[];
    }

    ghost predicate Valid()
      reads this
    {
      forall n :: n in emitted ==> emitted[n] == Emit(n)
    }

    /** `compile_node`. */
    method CompileNode(n: Node) returns (c: Code)
      requires Valid()
      modifies this
      ensures Valid() && c == Emit(n)
      decreases n, 1
    {
      if n in emitted {
        return emitted[n];
      }
      match n {
        case Prim(f) => c := CPrim(f);
        case All(es) => c := CompileAll(es);
        case Any(es) => c := CompileAny(es);
        case Nothing => c := CNothing;
        case Exit => c := CExit;
      }
      emitted := emitted[n := c];
    }

    /** `emit_all`: the chain grows from the last edge to the first. */
    method CompileAll(es: seq<Node>) returns (c: Code)
      requires Valid()
      modifies this
      ensures Valid() && c == EmitAll(es, 0)
      decreases es, 0
    {
      var chained := false;
      c := CNothing;
      for i := |es| downto 0
        invariant Valid() && chained == HasChain(es, i) && c == EmitAll(es, i)
      {
        if !es[i].Nothing? {
          if !chained {
            c := CompileNode(es[i]);
          } else if es[i].Prim? {
            c := CChainPrim(es[i].f, c);
          } else {
            var call := CompileNode(es[i]);
            c := CChainCall(call, c);
          }
          chained := true;
        }
      }
    }

    /** `emit_any`. */
    method CompileAny(es: seq<Node>) returns (c: Code)
      requires Valid()
      modifies this
      ensures Valid() && c == Emit(Any(es))
      decreases es, 0
    {
      if |es| == 0 {
        return CExit;
      }
      if |es| == 1 {
        c := CompileNode(es[0]);
        return;
      }
      hide Emit;
      assert Emit(Any(es)) == CAny(Emits(es)) by {
        AnyEmits(es);
      }
      var alts := [];
      for i := 0 to |es|
        invariant Valid() && alts == Emits(es)[..i]
      {
        var alt := CompileNode(es[i]);
        alts := alts + [alt];
      }
      c := CAny(alts);
    }
  }
}
