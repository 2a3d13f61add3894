/** What a control tree does, tree by tree and without lists of what is still to be done: the calls that it makes and
    the places where whatever follows it starts. */
module Denotations {
  import opened Sims
  import opened Controls

  /** A call of a primitive, or a place where the tree has been gone through, with the state reached there. */
  datatype Item = Called(e: Event) | Here(s: seq<Byte>)

  /** What follows starts at every such place. */
  ghost function Then(items: seq<Item>, k: seq<Byte> -> seq<Item>): seq<Item> {
    if items == [] then []
    else (if items[0].Here? then k(items[0].s) else [items[0]]) + Then(items[1..], k)
  }

  ghost function Calls(items: seq<Item>): seq<Event> {
    if items == [] then []
    else (if items[0].Called? then [items[0].e] else []) + Calls(items[1..])
  }

  /** A primitive that cuts its path leads nowhere; `any` tries everything from the same state. */
  ghost function Denotes(w: World, n: Node, s: seq<Byte>): seq<Item>
    decreases Size(n), 0
  {
    match n
    case Prim(f) => [Called(Event(f, s))] + (if w(f, s).go then [Here(w(f, s).after)] else [])
    case All(es) => assert Size(n) == 1 + Sizes(es); DenotesAll(w, es, s)
    case Any(es) => assert Size(n) == 1 + Sizes(es); DenotesAny(w, es, s)
    case Nothing => [Here(s)]
    case Exit => []
  }

  /** Every edge starts where the one before it has been gone through. */
  ghost function DenotesAll(w: World, es: seq<Node>, s: seq<Byte>): seq<Item>
    decreases Sizes(es), 1
  {
    if es == [] then [Here(s)]
    else
      assert Sizes(es) == Size(es[0]) + Sizes(es[1..]);
      Then(Denotes(w, es[0], s), (r: seq<Byte>) => DenotesAll(w, es[1..], r))
  }

  ghost function DenotesAny(w: World, es: seq<Node>, s: seq<Byte>): seq<Item>
    decreases Sizes(es), 1
  {
    if es == [] then []
    else
      assert Sizes(es) == Size(es[0]) + Sizes(es[1..]);
      Denotes(w, es[0], s) + DenotesAny(w, es[1..], s)
  }

  // ---------- sequencing ----------

  lemma {:induction false} ThenAppend(a: seq<Item>, b: seq<Item>, k: seq<Byte> -> seq<Item>)
    ensures Then(a + b, k) == Then(a, k) + Then(b, k)
  {
    if a == [] {
      assert a + b == b;
    } else {
      assert (a + b)[1..] == a[1..] + b;
      ThenAppend(a[1..], b, k);
    }
  }

  lemma {:induction false} ThenSame(a: seq<Item>, j: seq<Byte> -> seq<Item>, k: seq<Byte> -> seq<Item>)
    requires forall s :: j(s) == k(s)
    ensures Then(a, j) == Then(a, k)
  {
    if a != [] {
      ThenSame(a[1..], j, k);
    }
  }

  lemma {:induction false} ThenTwice(a: seq<Item>, j: seq<Byte> -> seq<Item>, k: seq<Byte> -> seq<Item>)
    ensures Then(Then(a, j), k) == Then(a, (s: seq<Byte>) => Then(j(s), k))
  {
    if a != [] {
      ThenTwice(a[1..], j, k);
      ThenAppend(if a[0].Here? then j(a[0].s) else [a[0]], Then(a[1..], j), k);
      assert Then([a[0]], k) == (if a[0].Here? then k(a[0].s) else [a[0]]) + Then([a[0]][1..], k);
    }
  }

  lemma ThenOne(i: Item, k: seq<Byte> -> seq<Item>)
    ensures Then([i], k) == if i.Here? then k(i.s) else [i]
  {
    assert [i][1..] == [];
  }

  lemma {:induction false} CallsAppend(a: seq<Item>, b: seq<Item>)
    ensures Calls(a + b) == Calls(a) + Calls(b)
  {
    if a == [] {
      assert a + b == b;
    } else {
      assert (a + b)[1..] == a[1..] + b;
      CallsAppend(a[1..], b);
    }
  }

  /** Going through two lists of edges in turn. */
  lemma {:induction false} AllAppend(w: World, es: seq<Node>, fs: seq<Node>, s: seq<Byte>)
    ensures DenotesAll(w, es + fs, s) == Then(DenotesAll(w, es, s), (r: seq<Byte>) => DenotesAll(w, fs, r))
    decreases |es|
  {
    var k := (r: seq<Byte>) => DenotesAll(w, fs, r);
    if es == [] {
      assert es + fs == fs;
      ThenOne(Here(s), k);
    } else {
      assert (es + fs)[1..] == es[1..] + fs && (es + fs)[0] == es[0];
      var a := Denotes(w, es[0], s);
      var i, j := (r: seq<Byte>) => DenotesAll(w, es[1..], r), (r: seq<Byte>) => DenotesAll(w, es[1..] + fs, r);
      forall r
        ensures Then(i(r), k) == j(r)
      {
        AllAppend(w, es[1..], fs, r);
      }
      ThenTwice(a, i, k);
      ThenSame(a, (r: seq<Byte>) => Then(i(r), k), j);
    }
  }

  // ---------- the depth-first meaning makes the same calls ----------

  ghost function After(w: World, ks: seq<Node>): seq<Byte> -> seq<Item> {
    (r: seq<Byte>) => DenotesAll(w, ks, r)
  }

  lemma DenotesCons(w: World, n: Node, ks: seq<Node>, s: seq<Byte>)
    ensures DenotesAll(w, [n] + ks, s) == Then(Denotes(w, n, s), After(w, ks))
  {
    assert ([n] + ks)[1..] == ks && ([n] + ks)[0] == n;
    ThenSame(Denotes(w, n, s), (r: seq<Byte>) => DenotesAll(w, ([n] + ks)[1..], r), After(w, ks));
  }

  lemma PrimCalls(w: World, f: nat, s: seq<Byte>, k: seq<Byte> -> seq<Item>)
    ensures Calls(Then(Denotes(w, Prim(f), s), k)) ==
        [Event(f, s)] + if w(f, s).go then Calls(k(w(f, s).after)) else []
  {
    var call := Called(Event(f, s));
    ThenOne(call, k);
    assert Calls([call]) == [Event(f, s)] + Calls([call][1..]);
    if w(f, s).go {
      ThenAppend([call], [Here(w(f, s).after)], k);
      ThenOne(Here(w(f, s).after), k);
      CallsAppend([call], k(w(f, s).after));
    } else {
      assert Denotes(w, Prim(f), s) == [call];
    }
  }

  /** What a list of trees makes happen is what they denote, one after the other. */
  lemma {:induction false} MeaningDenotes(w: World, ns: seq<Node>, s: seq<Byte>)
    ensures Meaning(w, ns, s) == Calls(DenotesAll(w, ns, s))
    decreases Sizes(ns), 0
  {
    if ns == [] {
      assert Calls([Here(s)]) == Calls([Here(s)][1..]);
    } else {
      var n, r := ns[0], ns[1..];
      assert ns == [n] + r && Sizes(ns) == Size(n) + Sizes(r);
      var k := After(w, r);
      DenotesCons(w, n, r, s);
      match n
      case Prim(f) =>
        PrimCalls(w, f, s, k);
        MeaningDenotes(w, r, w(f, s).after);
      case Nothing =>
        ThenOne(Here(s), k);
        MeaningDenotes(w, r, s);
      case Exit =>
      case All(es) =>
        SizesAppend(es, r);
        AllAppend(w, es, r, s);
        MeaningDenotes(w, es + r, s);
      case Any(es) =>
        AnyDenotes(w, es, r, s, 0);
        assert es[0..] == es;
    }
  }

  lemma {:induction false} AnyDenotes(w: World, es: seq<Node>, ks: seq<Node>, s: seq<Byte>, i: nat)
    requires i <= |es|
    ensures Alternatives(w, es, ks, s, i) + Calls(Then(DenotesAny(w, es[i..], s), After(w, ks)))
        == Alternatives(w, es, ks, s, |es|)
    decreases Sizes(es) + Sizes(ks), 2, |es| - i
  {
    if i < |es| {
      var a, b := Denotes(w, es[i], s), DenotesAny(w, es[i + 1..], s);
      assert es[i..][1..] == es[i + 1..];
      ThenAppend(a, b, After(w, ks));
      CallsAppend(Then(a, After(w, ks)), Then(b, After(w, ks)));
      SizesIn(es, i);
      assert ([es[i]] + ks)[1..] == ks;
      MeaningDenotes(w, [es[i]] + ks, s);
      DenotesCons(w, es[i], ks, s);
      AnyDenotes(w, es, ks, s, i + 1);
    }
  }

  /** The calls that a tree makes. */
  ghost function CallsOf(w: World, n: Node, s: seq<Byte>): seq<Event> {
    Calls(Denotes(w, n, s))
  }

  lemma CallsMean(w: World, n: Node, s: seq<Byte>)
    ensures CallsOf(w, n, s) == Meaning(w, [n], s)
  {
    MeaningDenotes(w, [n], s);
    DenotesCons(w, n, [], s);
    assert [n] + [] == [n];
    Unchanged(Denotes(w, n, s), After(w, []));
  }

  lemma {:induction false} Unchanged(a: seq<Item>, k: seq<Byte> -> seq<Item>)
    requires forall r :: k(r) == [Here(r)]
    ensures Then(a, k) == a
  {
    if a != [] {
      Unchanged(a[1..], k);
    }
  }
}
