/** The binary heap of the pruner: nodes from index 1, ordered by cost, then colour, then variable. */
module Heaps {

  /** Optimistic and pessimistic bounds. */
  datatype Color = Gray | Black

  datatype HNode = HNode(cost: real, color: Color, xi: nat)

  /** The order of `hnode.u64` for nonnegative costs. */
  predicate Less(a: HNode, b: HNode) {
    || a.cost < b.cost
    || (a.cost == b.cost && a.color.Gray? && b.color.Black?)
    || (a.cost == b.cost && a.color == b.color && a.xi < b.xi)
  }

  predicate AtMost(a: HNode, b: HNode) {
    !Less(b, a)
  }

  /** `hnode.u64`, little endian: the bits of the cost on top, then the colour, then the variable, 16 bits each. */
  function Packed(bits: nat, n: HNode): nat {
    0x1_0000_0000 * bits + 0x1_0000 * (if n.color.Black? then 1 else 0) + n.xi
  }

  /** The bits of nonnegative floats are ordered as the floats are; so the packed integers are ordered as the nodes. */
  lemma PackedOrder(i: nat, a: HNode, j: nat, b: HNode)
    requires a.xi < 0x1_0000 && b.xi < 0x1_0000
    requires (i < j <==> a.cost < b.cost) && (i == j <==> a.cost == b.cost)
    ensures Less(a, b) <==> Packed(i, a) < Packed(j, b)
  {
    if i < j {
      assert 0x1_0000_0000 * (j - i) >= 0x1_0000_0000;
    } else if j < i {
      assert 0x1_0000_0000 * (i - j) >= 0x1_0000_0000;
    }
  }

  /** No node of `s[1..]` is less than its parent. */
  ghost predicate Ordered(s: seq<HNode>) {
    forall i :: 2 <= i < |s| ==> AtMost(s[i / 2], s[i])
  }

  lemma {:induction false} RootLeast(s: seq<HNode>, i: nat)
    requires Ordered(s) && 1 <= i < |s|
    ensures AtMost(s[1], s[i])
  {
    if i > 1 {
      RootLeast(s, i / 2);
    }
  }

  /** All but the slot at `pos` is ordered, and the gap can be closed with a node between `lo` and its children. */
  ghost predicate Gap(s: seq<HNode>, pos: nat) {
    && 1 <= pos < |s|
    && (forall i :: 2 <= i < |s| && i != pos && i / 2 != pos ==> AtMost(s[i / 2], s[i]))
    && (forall i :: 2 <= i < |s| && i / 2 == pos && pos > 1 ==> AtMost(s[pos / 2], s[i]))
  }

  ghost predicate BelowGap(s: seq<HNode>, pos: nat, n: HNode) {
    forall i :: 2 <= i < |s| && i / 2 == pos ==> AtMost(n, s[i])
  }

  /** One step of the gap towards the root. */
  lemma GapUp(s: seq<HNode>, pos: nat, n: HNode)
    requires 1 < pos < |s| && Gap(s, pos) && BelowGap(s, pos, n) && !Less(s[pos / 2], n)
    ensures var t := s[pos := s[pos / 2]];
            Gap(t, pos / 2) && BelowGap(t, pos / 2, n) && Filled(t, pos / 2, n) == Filled(s, pos, n)
  {
    GapUpOrdered(s, pos, n);
    FillMoved(s, pos, pos / 2, n);
  }

  /** The gap has reached the place of `n`. */
  lemma GapBelow(s: seq<HNode>, pos: nat, n: HNode)
    requires 1 <= pos < |s| && Gap(s, pos) && BelowGap(s, pos, n) && (pos > 1 ==> Less(s[pos / 2], n))
    ensures Ordered(s[pos := n]) && Bag(s[pos := n]) == Filled(s, pos, n)
  {
    GapClosed(s, pos, n);
  }

  lemma GapUpOrdered(s: seq<HNode>, pos: nat, n: HNode)
    requires Gap(s, pos) && BelowGap(s, pos, n) && pos > 1 && AtMost(n, s[pos / 2])
    ensures Gap(s[pos := s[pos / 2]], pos / 2) && BelowGap(s[pos := s[pos / 2]], pos / 2, n)
  {
    var q, t := pos / 2, s[pos := s[pos / 2]];
    forall i | 2 <= i < |t| && i / 2 == q
      ensures AtMost(n, t[i]) && (q > 1 ==> AtMost(t[q / 2], t[i]))
    {
      if i != pos {
        assert AtMost(s[q], s[i]);
      }
    }
  }

  /** A new slot at the end is a gap. */
  lemma GapAtEnd(s: seq<HNode>, x: HNode, n: HNode)
    requires Ordered(s) && |s| > 0
    ensures Gap(s + [x], |s|) && BelowGap(s + [x], |s|, n)
    ensures Filled(s + [x], |s|, n) == Bag(s) + multiset{n}
  {
    assert (s + [x])[|s| := n][1..] == s[1..] + [n];
  }

  lemma GapClosed(s: seq<HNode>, pos: nat, n: HNode)
    requires Gap(s, pos) && BelowGap(s, pos, n) && (pos > 1 ==> AtMost(s[pos / 2], n))
    ensures Ordered(s[pos := n])
  {
  }

  /** The nodes in the slots from 1 on. */
  ghost function Bag(s: seq<HNode>): multiset<HNode>
    requires |s| > 0
  {
    multiset(s[1..])
  }

  /** The nodes once the gap is filled. */
  ghost function Filled(s: seq<HNode>, pos: nat, n: HNode): multiset<HNode>
    requires 1 <= pos < |s|
  {
    Bag(s[pos := n])
  }

  lemma FillMoved(s: seq<HNode>, pos: nat, q: nat, n: HNode)
    requires 1 <= pos < |s| && 1 <= q < |s| && pos != q
    ensures Filled(s[pos := s[q]], q, n) == Filled(s, pos, n)
  {
    var a, b := s[pos := s[q]][q := n], s[pos := n];
    SwapSame(b[1..], pos - 1, q - 1);
    assert a[1..] == b[1..][pos - 1 := b[1..][q - 1]][q - 1 := b[1..][pos - 1]];
  }

  lemma SwapSame(s: seq<HNode>, i: nat, j: nat)
    requires i < |s| && j < |s|
    ensures multiset(s[i := s[j]][j := s[i]]) == multiset(s)
  {
  }

  lemma Member(s: seq<HNode>, n: HNode) returns (i: nat)
    requires |s| > 0 && n in Bag(s)
    ensures 1 <= i < |s| && s[i] == n
  {
    assert n in s[1..];
    var k :| 0 <= k < |s[1..]| && s[1..][k] == n;
    i := k + 1;
  }

  /** The least of `last` and the children of `pos` among the first `|s| - 1` nodes. */
  function Least(s: seq<HNode>, pos: nat, last: HNode): (min: nat)
    requires 1 <= pos < |s|
    ensures min == pos || (min < |s| && min / 2 == pos && min > pos)
  {
    var a := if 2 * pos < |s| && Less(s[2 * pos], last) then 2 * pos else pos;
    var v := if a == pos then last else s[a];
    if 2 * pos + 1 < |s| && Less(s[2 * pos + 1], v) then 2 * pos + 1 else a
  }

  lemma FirstLeast(s: seq<HNode>)
    requires Ordered(s) && |s| > 1
    ensures s[1] in Bag(s) && forall n :: n in Bag(s) ==> AtMost(s[1], n)
  {
    assert s[1] == s[1..][0];
    forall n | n in Bag(s)
      ensures AtMost(s[1], n)
    {
      var i := Member(s, n);
      RootLeast(s, i);
    }
  }

  lemma OnlyOne(s: seq<HNode>)
    requires |s| == 2
    ensures Bag(s[..1]) == Bag(s) - multiset{s[1]}
  {
    assert s[1..] == [s[1]] && s[..1][1..] == [];
  }

  /** Taking the root out and the last node from the end leaves a gap at the root. */
  lemma TakeLast(s: seq<HNode>)
    requires Ordered(s) && |s| > 2
    ensures var t := s[..|s| - 1]; Gap(t, 1) && Filled(t, 1, s[|s| - 1]) == Bag(s) - multiset{s[1]}
  {
    var t, n := s[..|s| - 1], s[|s| - 1];
    assert s[1..] == [s[1]] + s[2..|s| - 1] + [n];
    assert t[1 := n][1..] == [n] + s[2..|s| - 1];
  }

  /** The gap can take `n` as far as its parent is concerned. */
  ghost predicate AboveGap(s: seq<HNode>, pos: nat, n: HNode)
    requires 1 <= pos < |s|
  {
    pos > 1 ==> AtMost(s[pos / 2], n)
  }

  /** One step of the gap towards the leaves, or its end. */
  lemma GapDown(s: seq<HNode>, pos: nat, n: HNode)
    requires 1 <= pos < |s| && Gap(s, pos) && AboveGap(s, pos, n)
    ensures var min := Least(s, pos, n);
            if min == pos then Ordered(s[pos := n]) && Bag(s[pos := n]) == Filled(s, pos, n)
            else (Gap(s[pos := s[min]], min) && AboveGap(s[pos := s[min]], min, n)
                  && Filled(s[pos := s[min]], min, n) == Filled(s, pos, n))
  {
    var min := Least(s, pos, n);
    if min == pos {
      assert BelowGap(s, pos, n);
      GapClosed(s, pos, n);
    } else {
      GapDownMoved(s, pos, n, min);
      FillMoved(s, pos, min, n);
    }
  }

  lemma GapDownMoved(s: seq<HNode>, pos: nat, n: HNode, min: nat)
    requires Gap(s, pos) && AboveGap(s, pos, n) && min == Least(s, pos, n) && min != pos
    ensures Gap(s[pos := s[min]], min) && AboveGap(s[pos := s[min]], min, n)
  {
    var t := s[pos := s[min]];
    forall i | 2 <= i < |t| && i != min && i / 2 != min
      ensures AtMost(t[i / 2], t[i])
    {
      if i == pos {
      } else if i / 2 == pos {
        assert i == 2 * pos || i == 2 * pos + 1;
      }
    }
    forall i | 2 <= i < |t| && i / 2 == min
      ensures AtMost(t[min / 2], t[i])
    {
      assert AtMost(s[min], s[i]);
    }
  }

  const HSIZE: nat := 64

  class Heap {
    var nodes: array<HNode>
    var pos: nat

    ghost predicate Valid()
      reads this, nodes
    {
      pos < nodes.Length && nodes.Length >= 2 && Ordered(nodes[..pos + 1])
    }

    ghost function Contents(): multiset<HNode>
      reads this, nodes
      requires Valid()
    {
      Bag(nodes[..pos + 1])
    }

    constructor ()
      ensures Valid() && Contents() == multiset{} && fresh(nodes) && pos == 0
    {
      nodes := new HNode[HSIZE + 1](_ => HNode(0.0, Gray, 0));
      pos := 0;
    }

    /** Doubles the allocation when it is full. */
    method Grow()
      requires Valid()
      modifies this
      ensures Valid() && pos == old(pos) && pos + 1 < nodes.Length
      ensures nodes[..pos + 1] == old(nodes[..pos + 1])
      ensures nodes == old(nodes) || fresh(nodes)
    {
      if pos + 1 == nodes.Length {
        var a := new HNode[2 * nodes.Length - 1](i requires 0 <= i < 2 * nodes.Length - 1 reads this, nodes =>
          if i < nodes.Length then nodes[i] else HNode(0.0, Gray, 0));
        assert a[..pos + 1] == nodes[..pos + 1];
        nodes := a;
      }
    }

    /** `heap_insert`: the gap at the end moves up to where the node belongs. */
    method Insert(n: HNode)
      requires Valid()
      modifies this, nodes
      ensures Valid() && Contents() == old(Contents()) + multiset{n}
      ensures nodes == old(nodes) || fresh(nodes)
      ensures pos == old(pos) + 1
    {
      hide Ordered, Gap, BelowGap, AboveGap, Filled, AtMost, Bag;
      Grow();
      GapAtEnd(nodes[..pos + 1], nodes[pos + 1], n);
      assert nodes[..pos + 2] == nodes[..pos + 1] + [nodes[pos + 1]];
      pos := pos + 1;
      SiftUp(n);
    }

    /** Puts `n` into the slot at `at`. */
    method Put(at: nat, n: HNode)
      requires 1 <= at <= pos < nodes.Length
      modifies nodes
      ensures nodes[..pos + 1] == old(nodes[..pos + 1])[at := n]
    {
      nodes[at] := n;
    }

    /** Moves the gap at the end up to where `n` belongs, and fills it. */
    method SiftUp(n: HNode)
      requires 1 <= pos < nodes.Length && Gap(nodes[..pos + 1], pos) && BelowGap(nodes[..pos + 1], pos, n)
      modifies nodes
      ensures Ordered(nodes[..pos + 1]) && Bag(nodes[..pos + 1]) == old(Filled(nodes[..pos + 1], pos, n))
    {
      hide Ordered, Gap, BelowGap, AboveGap, Filled, AtMost, Bag;
      var at := pos;
      while at > 1
        invariant 1 <= at <= pos < nodes.Length
        invariant Gap(nodes[..pos + 1], at) && BelowGap(nodes[..pos + 1], at, n)
        invariant Filled(nodes[..pos + 1], at, n) == old(Filled(nodes[..pos + 1], pos, n))
      {
        var parent := nodes[at / 2];
        if Less(parent, n) {
          GapBelow(nodes[..pos + 1], at, n);
          Put(at, n);
          return;
        }
        GapUp(nodes[..pos + 1], at, n);
        Put(at, parent);
        at := at / 2;
      }
      GapBelow(nodes[..pos + 1], at, n);
      Put(at, n);
    }

    /** `heap_remove`: takes the root; the last node moves into the gap, which moves down to where it belongs. */
    method Remove() returns (root: HNode)
      requires Valid() && pos > 0
      modifies this, nodes
      ensures Valid() && nodes == old(nodes) && pos == old(pos) - 1
      ensures root in old(Contents()) && Contents() == old(Contents()) - multiset{root}
      ensures forall n :: n in old(Contents()) ==> AtMost(root, n)
    {
      hide Gap, AboveGap, AtMost, Filled, Bag;
      ghost var was := nodes[..pos + 1];
      FirstLeast(was);
      root := nodes[1];
      var last := nodes[pos];
      pos := pos - 1;
      if pos == 0 {
        OnlyOne(was);
        nodes[1] := last;
        assert nodes[..pos + 1] == was[..1];
      } else {
        TakeLast(was);
        assert nodes[..pos + 1] == was[..pos + 1];
        SiftDown(last);
      }
    }

    /** Fills the gap at the root with `last`, after moving it down to where `last` belongs. */
    method SiftDown(last: HNode)
      requires 1 <= pos < nodes.Length && Gap(nodes[..pos + 1], 1)
      modifies nodes
      ensures Ordered(nodes[..pos + 1]) && Bag(nodes[..pos + 1]) == old(Filled(nodes[..pos + 1], 1, last))
    {
      hide Ordered, Gap, Filled, AtMost, Bag, Less, Least;
      var at := 1;
      while true
        invariant 1 <= at <= pos < nodes.Length
        invariant Gap(nodes[..pos + 1], at) && AboveGap(nodes[..pos + 1], at, last)
        invariant Filled(nodes[..pos + 1], at, last) == old(Filled(nodes[..pos + 1], 1, last))
        decreases pos - at
      {
        GapDown(nodes[..pos + 1], at, last);
        var min := LeastOf(at, last);
        if min == at {
          Put(at, last);
          return;
        }
        Put(at, nodes[min]);
        at := min;
      }
    }

    /** The slot of the least of `last` and the children of `at`; `at` itself stands for `last`. */
    method LeastOf(at: nat, last: HNode) returns (min: nat)
      requires 1 <= at <= pos < nodes.Length
      ensures min == Least(nodes[..pos + 1], at, last)
    {
      hide Less;
      var node := last;
      min := at;
      if 2 * at <= pos && Less(nodes[2 * at], node) {
        min, node := 2 * at, nodes[2 * at];
      }
      if 2 * at + 1 <= pos && Less(nodes[2 * at + 1], node) {
        min, node := 2 * at + 1, nodes[2 * at + 1];
      }
    }
  }
}
