/** Packed subsets: intervals whose iterator stops by a carry, and lists of indices as lists of intervals. */
module Subsets {

  const WORD: nat := 18446744073709551616

  // ---------- packed intervals ----------

  /** `SS_PKIVAL`, and `range` of the Lua side: `n` instances from `first` on. */
  function Pack(first: nat, n: nat): nat {
    ((WORD - 1 - n % WORD) * 65536 + first + 18446744056529813504) % WORD
  }

  /** `SI_INST`, `SI_REM`, and the bit behind `SI_NEXTIMASK`. */
  function Inst(it: nat): nat {
    it % 65536
  }

  function Rem(it: nat): nat {
    it / 65536 % 65536
  }

  function More(it: nat): bool {
    it / 4294967296 % 2 == 1
  }

  /** What the packed form of a nonempty interval says: its first instance, how many follow, and that more is to come
      as long as any do. */
  lemma PackIs(first: nat, n: nat)
    requires 1 <= n && first + n <= 65535
    ensures Pack(first, n) < WORD && Inst(Pack(first, n)) == first && Left(Pack(first, n)) == n - 1
    ensures More(Pack(first, n)) <==> n > 1
  {
    var r := n - 1;
    var v := (WORD - 1 - n) * 65536 + first + 18446744056529813504;
    PackValue(first, n);
    assert Pack(first, n) == 65536 * (281474976448512 - r) + first;
    WordFields(281474976448512 - r, first);
    assert 281474976448512 - r ==
        65536 * (if r == 0 then 4294967292 else 4294967291) + (if r == 0 then 0 else 65536 - r);
  }

  lemma PackValue(first: nat, n: nat)
    requires 1 <= n && first + n <= 65535
    ensures Pack(first, n) == WORD - 17179869184 - (n - 1) * 65536 + first
  {
    var it := WORD - 17179869184 - (n - 1) * 65536 + first;
    var v := (WORD - 1 - n) * 65536 + first + 18446744056529813504;
    assert (WORD - 1 - n) * 65536 == WORD * 65536 - 65536 - n * 65536;
    assert v == it + 65536 * WORD;
    assert v % WORD == it % WORD;
  }

  /** The instances after the one at hand, from the negative counter. */
  function Left(it: nat): nat {
    (65536 - Rem(it)) % 65536
  }

  lemma WordFields(q: nat, c: nat)
    requires c < 65536
    ensures Inst(65536 * q + c) == c && Rem(65536 * q + c) == q % 65536
    ensures More(65536 * q + c) <==> q / 65536 % 2 == 1
  {
    var it := 65536 * q + c;
    assert it / 65536 == q;
    assert it / 4294967296 == q / 65536;
  }

  /** One `SI_NEXT`: the current instance goes up, the counter as well, and a carry out of it flips the marker bit. */
  lemma NextFields(it: nat)
    requires it < WORD && Rem(it) != 0 && Inst(it) < 65535
    ensures var next := (it + 65537) % WORD;
      Inst(next) == Inst(it) + 1 && Left(next) == Left(it) - 1 && (More(next) <==> (More(it) <==> Left(next) > 0))
  {
    hide Inst, Rem, More;
    var q, c := it / 65536, it % 65536;
    WordFields(q, c);
    var p := if q + 1 == 281474976710656 then 0 else q + 1;
    NextWord(it, q, c, p);
    WordFields(p, c + 1);
    CounterUp(q, p);
  }

  lemma DivMod(a: nat, b: nat)
    requires b < 65536
    ensures (65536 * a + b) / 65536 == a && (65536 * a + b) % 65536 == b
  {
  }

  lemma NextWord(it: nat, q: nat, c: nat, p: nat)
    requires it < WORD && it == 65536 * q + c && c < 65535 && p == (if q + 1 == 281474976710656 then 0 else q + 1)
    ensures (it + 65537) % WORD == 65536 * p + (c + 1)
  {
    assert q < 281474976710656;
    if p == 0 {
      assert it + 65537 == WORD + (c + 1);
    }
  }

  lemma CounterUp(q: nat, p: nat)
    requires q < 281474976710656 && p == (if q + 1 == 281474976710656 then 0 else q + 1)
    ensures p % 65536 == (if q % 65536 == 65535 then 0 else q % 65536 + 1)
    ensures (p / 65536 % 2 == 1) <==> ((q / 65536 % 2 == 1) <==> q % 65536 != 65535)
  {
    var k, r := q / 65536, q % 65536;
    if r == 65535 {
      DivMod(k + 1, 0);
    } else {
      DivMod(k, r + 1);
    }
  }

  /** The numbers from `first` on. */
  function From(first: nat, n: nat): (s: seq<nat>)
    ensures |s| == n && forall i :: 0 <= i < n ==> s[i] == first + i
  {
    seq(n, i requires 0 <= i < n => first + i)
  }

  /** The loop around `SI_NEXT`, up to the end of the interval at hand: all its instances, and whether the iterator then
      takes the interval for one of a list, and goes on to the next one. The carry out of the counter flips the marker
      bit on the last instance, and only there. */
  method Walk(start: nat) returns (seen: seq<nat>, on: bool)
    requires start < WORD && Inst(start) + Left(start) <= 65535
    ensures seen == From(Inst(start), Left(start) + 1)
    ensures on <==> if Left(start) > 0 then !More(start) else More(start)
  {
    hide Inst, Rem, More, Left;
    var it: nat := start;
    seen := [];
    ghost var r := Left(start);
    while true
      invariant it < WORD && r <= Left(start) && Left(it) == r && Inst(it) == Inst(start) + Left(start) - r
      invariant seen == From(Inst(start), Left(start) - r)
      invariant r > 0 || Left(start) == 0 ==> (More(it) <==> More(start))
      invariant r == 0 && Left(start) > 0 ==> (More(it) <==> !More(start))
      decreases r
    {
      LeftZero(it);
      seen := seen + [Inst(it)];
      if Rem(it) != 0 {
        NextFields(it);
        it := (it + 65537) % WORD;
        r := r - 1;
      } else {
        on := More(it);
        return;
      }
    }
  }

  lemma LeftZero(it: nat)
    ensures Left(it) == 0 <==> Rem(it) == 0
  {
  }

  /** Iterating over a packed interval visits every instance once, in order, and stops. */
  method Iterate(first: nat, n: nat) returns (seen: seq<nat>, on: bool)
    requires 1 <= n && first + n <= 65535
    ensures seen == From(first, n) && !on
  {
    hide Pack, Inst, More, Left;
    PackIs(first, n);
    seen, on := Walk(Pack(first, n));
  }

  /** `ss1`: an interval from its first and last instance. The upper half comes from the sign of a 32-bit number, so
      that it is right only while the counter's top bit is set. */
  function Ss1(from: nat, to: nat): (it: nat)
    requires from <= to <= 65534
  {
    var d := to - from;
    if d == 0 then 18446744065119617024 + from
    else if d <= 32768 then 18446744069414584320 + 4294967296 - d * 65536 + from
    else 18446744065119617024 + 4294967296 - d * 65536 + from
  }

  /** The fields of `ss1` are right, except for the marker bit of an interval of more than 32769 instances. */
  lemma Ss1Is(from: nat, to: nat)
    requires from <= to <= 65534
    ensures Ss1(from, to) < WORD && Inst(Ss1(from, to)) == from && Left(Ss1(from, to)) == to - from
    ensures More(Ss1(from, to)) <==> 0 < to - from <= 32768
  {
    hide Inst, Rem, More;
    var d: nat := to - from;
    var u: nat := if 0 < d <= 32768 then 4294967295 else 4294967294;
    var r: nat := if d == 0 then 0 else 65536 - d;
    DivMod(u, r);
    WordFields(65536 * u + r, from);
    assert Ss1(from, to) == 65536 * (65536 * u + r) + from;
  }

  /** So iterating over the result of `ss1` stops at its end exactly for intervals of up to 32769 instances. */
  method IterateSs1(from: nat, to: nat) returns (seen: seq<nat>, on: bool)
    requires from <= to <= 65534
    ensures seen == From(from, to - from + 1)
    ensures !on <==> to - from <= 32768
  {
    hide Ss1, Inst, More, Left;
    Ss1Is(from, to);
    seen, on := Walk(Ss1(from, to));
  }

  // ---------- lists of intervals ----------

  /** `pkrange`: an inclusive interval in 32 bits. */
  function PkRange(from: nat, to: nat): (pk: nat)
    requires from <= to <= 65534
    ensures pk < 4294967296
  {
    if from == to then from else 4294967296 - (to - from) * 65536 + from
  }

  /** `PK_FIRST`, `PK_N` and `PK_N1`. */
  function PkFirst(pk: nat): nat {
    pk % 65536
  }

  function PkN(pk: nat): nat {
    (65536 - pk / 65536 % 65536) % 65536
  }

  function PkN1(pk: nat): nat {
    (65537 - pk / 65536 % 65536) % 65536
  }

  lemma PkDecodes(from: nat, to: nat)
    requires from <= to <= 65534
    ensures var pk := PkRange(from, to); PkFirst(pk) == from && PkN(pk) == to - from && PkN1(pk) == to - from + 1
    ensures PkRange(from, to) / 65536 == if from == to then 0 else 65536 - (to - from)
  {
    var d := to - from;
    if d > 0 {
      assert PkRange(from, to) == 65536 * (65536 - d) + from;
    }
  }

  /** An interval list as it should be: decodable intervals. */
  predicate PkOk(pk: nat) {
    pk < 4294967296 && PkFirst(pk) + PkN(pk) <= 65534
  }

  /** The instances of a list of intervals, in order. */
  function Expand(ps: seq<nat>): seq<nat> {
    if ps == [] then [] else From(PkFirst(ps[0]), PkN(ps[0]) + 1) + Expand(ps[1..])
  }

  lemma {:induction false} ExpandAppend(a: seq<nat>, b: seq<nat>)
    ensures Expand(a + b) == Expand(a) + Expand(b)
  {
    if a == [] {
      assert a + b == b;
    } else {
      assert (a + b)[1..] == a[1..] + b;
      ExpandAppend(a[1..], b);
    }
  }

  predicate Sorted(idx: seq<nat>) {
    forall i, j :: 0 <= i < j < |idx| ==> idx[i] <= idx[j]
  }

  predicate Instances(idx: seq<nat>) {
    forall i :: 0 <= i < |idx| ==> idx[i] <= 65534
  }

  /** What `ssfromidx` returns: nothing, one interval, or a list of intervals. */
  datatype Subset = Empty | Ival(it: nat) | Complex(ps: seq<nat>)

  /** No interval goes on where the one before it ends: each is as long as it can be. */
  predicate Apart(ps: seq<nat>) {
    forall j :: 0 < j < |ps| ==> PkFirst(ps[j]) != PkFirst(ps[j - 1]) + PkN(ps[j - 1]) + 1
  }

  ghost predicate Represents(ss: Subset, idx: seq<nat>) {
    match ss
    case Empty => idx == []
    case Ival(it) => idx != [] && idx[0] + |idx| <= 65535 && idx == From(idx[0], |idx|)
        && it == Ss1(idx[0], idx[0] + |idx| - 1)
    case Complex(ps) => |ps| > 1 && (forall p :: p in ps ==> PkOk(p)) && Expand(ps) == idx && Apart(ps) && Broken(idx)
  }

  /** There is a gap, or the same instance twice. */
  predicate Broken(idx: seq<nat>) {
    exists i :: 0 < i < |idx| && idx[i] != idx[i - 1] + 1
  }

  /** Where `x` goes in a sorted list. */
  method Insert(s: seq<nat>, x: nat) returns (r: seq<nat>)
    requires Sorted(s) && Instances(s) && x <= 65534
    ensures Sorted(r) && Instances(r) && multiset(r) == multiset(s) + multiset{x}
  {
    var i := |s|;
    while i > 0 && s[i - 1] > x
      invariant 0 <= i <= |s| && forall j :: i <= j < |s| ==> s[j] > x
    {
      i := i - 1;
    }
    InsertAt(s, x, i);
    r := Inserted(s, x, i);
  }

  function Inserted(s: seq<nat>, x: nat, i: nat): (r: seq<nat>)
    requires i <= |s|
    ensures |r| == |s| + 1
    ensures forall j :: 0 <= j < |r| ==> r[j] == if j < i then s[j] else if j == i then x else s[j - 1]
  {
    s[..i] + [x] + s[i..]
  }

  lemma InsertBag(s: seq<nat>, x: nat, i: nat)
    requires i <= |s|
    ensures multiset(Inserted(s, x, i)) == multiset(s) + multiset{x}
  {
    assert s == s[..i] + s[i..];
  }

  lemma InsertAt(s: seq<nat>, x: nat, i: nat)
    requires Sorted(s) && Instances(s) && x <= 65534 && i <= |s| && (i > 0 ==> s[i - 1] <= x)
    requires forall j :: i <= j < |s| ==> s[j] > x
    ensures Sorted(Inserted(s, x, i)) && Instances(Inserted(s, x, i))
    ensures multiset(Inserted(s, x, i)) == multiset(s) + multiset{x}
  {
    hide Inserted;
    InsertBag(s, x, i);
    var r := Inserted(s, x, i);
    forall j | 0 <= j < |r|
      ensures r[j] <= 65534 && (j < i ==> r[j] <= x) && (j > i ==> r[j] > x)
    {
      assert r[j] == if j < i then s[j] else if j == i then x else s[j - 1];
      if j < i - 1 {
        assert s[j] <= s[i - 1];
      }
    }
    forall j, k | 0 <= j < k < |r|
      ensures r[j] <= r[k]
    {
      assert r[j] == if j < i then s[j] else if j == i then x else s[j - 1];
      assert r[k] == if k < i then s[k] else if k == i then x else s[k - 1];
    }
  }

  /** `table.sort`. */
  method SortIdx(idx: seq<nat>) returns (s: seq<nat>)
    requires Instances(idx)
    ensures Sorted(s) && Instances(s) && multiset(s) == multiset(idx)
  {
    hide Sorted, Instances;
    s := [];
    assert Sorted(s) && Instances(s) by {
      NoneSorted();
    }
    for i := 0 to |idx|
      invariant Sorted(s) && Instances(s) && multiset(s) == multiset(idx[..i])
    {
      InstanceAt(idx, i);
      s := Insert(s, idx[i]);
      assert idx[..i + 1] == idx[..i] + [idx[i]];
    }
    assert idx[..|idx|] == idx;
  }

  lemma NoneSorted()
    ensures Sorted([]) && Instances([])
  {
  }

  lemma InstanceAt(idx: seq<nat>, i: nat)
    requires Instances(idx) && i < |idx|
    ensures idx[i] <= 65534
  {
  }

  /** `ssfromidx`: the list is sorted, and taken apart into runs. */
  method FromIdx(list: seq<nat>) returns (ss: Subset)
    requires Instances(list)
    ensures exists idx: seq<nat> :: Sorted(idx) && multiset(idx) == multiset(list) && Represents(ss, idx)
  {
    hide Sorted;
    var s := SortIdx(list);
    if |s| == 0 {
      assert Represents(Empty, s);
      return Empty;
    }
    var start, pos, i := s[0], s[0], 1;
    while i < |s|
      invariant 1 <= i <= |s| && pos == s[i - 1] && start == s[0] && pos == start + (i - 1)
      invariant s[..i] == From(start, i)
    {
      var p := s[i];
      if p == pos + 1 {
        pos := p;
      } else {
        ss := FromIdxComplex(s, i, start, pos);
        assert Represents(ss, s);
        return;
      }
      i := i + 1;
    }
    assert s[..i] == s;
    ss := Ival(Ss1(start, pos));
    assert Represents(ss, s);
  }

  /** `ssfromidx_complex`: goes on once the first gap has been found. */
  method FromIdxComplex(idx: seq<nat>, i0: nat, start0: nat, pos0: nat) returns (ss: Subset)
    requires Instances(idx)
    requires 0 < i0 < |idx| && start0 == idx[0] && pos0 == idx[i0 - 1] && pos0 - start0 == i0 - 1
    requires idx[..i0] == From(start0, i0) && idx[i0] != pos0 + 1
    ensures ss.Complex? && Represents(ss, idx)
  {
    hide Expand, PkOk, PkRange, PkFirst, PkN;
    PkDecodes(start0, pos0);
    var ivals := [PkRange(start0, pos0)];
    OneExpands(start0, pos0);
    ghost var from: nat := i0;
    var start, pos, i := idx[i0], idx[i0], i0 + 1;
    RunStarts(idx, i0);
    while i < |idx|
      invariant i0 <= from < i <= |idx| && start == idx[from] && pos == idx[i - 1]
      invariant pos as int - start as int == i - 1 - from
      invariant idx[from..i] == From(start, i - from)
      invariant |ivals| > 0 && Expand(ivals) == idx[..from] && forall p :: p in ivals ==> PkOk(p)
      invariant Apart(ivals) && EndOf(ivals) != start
    {
      var p := idx[i];
      if p == pos + 1 {
        RunGrows(idx, from, i, start);
        pos := p;
      } else {
        ivals := CloseRun(ivals, start, pos, idx, from, i);
        RunStarts(idx, i);
        start, pos, from := p, p, i;
      }
      i := i + 1;
    }
    ivals := CloseRun(ivals, start, pos, idx, from, i);
    assert idx[..i] == idx;
    assert Broken(idx);
    ss := Complex(ivals);
  }

  /** `intervals[#intervals+1] = pkrange(start, pos)`. */
  method CloseRun(ivals: seq<nat>, start: nat, pos: nat, idx: seq<nat>, ghost from: nat, i: nat)
      returns (more: seq<nat>)
    requires Instances(idx)
    requires from < i <= |idx| && start == idx[from] && pos == idx[i - 1]
    requires pos as int - start as int == i - 1 - from && idx[from..i] == From(start, i - from)
    requires Expand(ivals) == idx[..from] && forall p :: p in ivals ==> PkOk(p)
    requires |ivals| > 0 && Apart(ivals) && EndOf(ivals) != start
    ensures |more| > 0 && Apart(more) && EndOf(more) == pos + 1
    ensures Expand(more) == idx[..i] && |more| == |ivals| + 1 && forall p :: p in more ==> PkOk(p)
  {
    hide Expand, PkOk, PkRange, PkFirst, PkN;
    PkDecodes(start, pos);
    AddInterval(ivals, start, pos, idx, from, i);
    more := ivals + [PkRange(start, pos)];
  }

  /** The instance after the last interval. */
  function EndOf(ps: seq<nat>): nat
    requires |ps| > 0
  {
    PkFirst(ps[|ps| - 1]) + PkN(ps[|ps| - 1]) + 1
  }

  lemma RunStarts(idx: seq<nat>, i: nat)
    requires i < |idx|
    ensures idx[i..i + 1] == From(idx[i], 1)
  {
  }

  lemma RunGrows(idx: seq<nat>, from: nat, i: nat, start: nat)
    requires from < i < |idx| && idx[from..i] == From(start, i - from) && idx[i] == start + (i - from)
    ensures idx[from..i + 1] == From(start, i + 1 - from)
  {
    assert idx[from..i + 1] == idx[from..i] + [idx[i]];
  }

  lemma OneExpands(from: nat, to: nat)
    requires from <= to <= 65534
    ensures Expand([PkRange(from, to)]) == From(from, to - from + 1) && PkOk(PkRange(from, to))
  {
    PkDecodes(from, to);
    assert Expand([PkRange(from, to)]) == From(from, to - from + 1) + Expand([]);
  }

  lemma AddInterval(ivals: seq<nat>, start: nat, pos: nat, idx: seq<nat>, from: nat, i: nat)
    requires start <= pos <= 65534 && from < i <= |idx| && pos - start == i - 1 - from
    requires Expand(ivals) == idx[..from] && idx[from..i] == From(start, i - from)
    ensures Expand(ivals + [PkRange(start, pos)]) == idx[..i] && PkOk(PkRange(start, pos))
  {
    OneExpands(start, pos);
    ExpandAppend(ivals, [PkRange(start, pos)]);
    assert idx[..from] + idx[from..i] == idx[..i];
  }

  // ---------- reading a complex subset ----------

  /** `si3`: the packed pointer to the interval at hand, with the number of intervals after it. */
  function Si3(base: nat, k: nat, left: nat): nat {
    (base + 4 * k) * 65536 + left
  }

  /** What a gather over `idx` has to produce. */
  function Gather<T>(src: seq<T>, idx: seq<nat>): (dest: seq<T>)
    requires forall i :: 0 <= i < |idx| ==> idx[i] < |src|
    ensures |dest| == |idx| && forall k :: 0 <= k < |idx| ==> dest[k] == src[idx[k]]
  {
    seq(|idx|, k requires 0 <= k < |idx| => src[idx[k]])
  }

  lemma {:induction false} ExpandHas(ps: seq<nat>, k: nat)
    requires k < |ps|
    ensures Expand(ps[..k + 1]) == Expand(ps[..k]) + From(PkFirst(ps[k]), PkN(ps[k]) + 1)
    ensures Expand(ps) == Expand(ps[..k + 1]) + Expand(ps[k + 1..])
  {
    assert ps[..k + 1] == ps[..k] + [ps[k]] && ps == ps[..k + 1] + ps[k + 1..];
    ExpandAppend(ps[..k], [ps[k]]);
    ExpandAppend(ps[..k + 1], ps[k + 1..]);
    assert [ps[k]][1..] == [];
    assert Expand([ps[k]]) == From(PkFirst(ps[k]), PkN(ps[k]) + 1) + Expand([]);
  }

  /** `si3_collect_ne`: copies the values of a complex subset, interval by interval. */
  method CollectNe<T>(src: seq<T>, ps: seq<nat>, base: nat) returns (dest: seq<T>)
    requires 0 < |ps| <= 65536 && (forall p :: p in ps ==> PkOk(p))
    requires forall i :: 0 <= i < |Expand(ps)| ==> Expand(ps)[i] < |src|
    ensures dest == Gather(src, Expand(ps))
  {
    hide PkOk, PkN, PkN1, PkFirst, Si3, Expand;
    var ip := Si3(base, 0, |ps| - 1);
    dest := [];
    ghost var k := 0;
    ExpandNone();
    while true
      invariant k < |ps| && ip == Si3(base, k, |ps| - 1 - k)
      invariant |Expand(ps[..k])| <= |Expand(ps)| && Expand(ps[..k]) == Expand(ps)[..|Expand(ps[..k])|]
      invariant dest == Gather(src, Expand(ps)[..|Expand(ps[..k])|])
      decreases |ps| - k
    {
      Si3At(base, k, |ps| - 1 - k);
      var pk := ps[(ip / 65536 - base) / 4];
      ExpandHas(ps, k);
      PkParts(pk);
      assert ps[k] in ps;
      CopyFits(src, ps, k);
      dest := dest + src[PkFirst(pk)..PkFirst(pk) + PkN1(pk)];
      if ip % 65536 == 0 {
        assert ps[..k + 1] == ps;
        return;
      }
      ip := ip + 262143;
      k := k + 1;
    }
  }

  lemma ExpandNone()
    ensures Expand([]) == []
  {
  }

  /** `SI3P_IINCR`: one addition moves the pointer on and counts down. */
  lemma Si3At(base: nat, k: nat, left: nat)
    requires left < 65536
    ensures Si3(base, k, left) / 65536 == base + 4 * k && Si3(base, k, left) % 65536 == left
    ensures left > 0 ==> Si3(base, k, left) + 262143 == Si3(base, k + 1, left - 1)
  {
  }

  lemma PkParts(pk: nat)
    requires PkOk(pk)
    ensures PkN1(pk) == PkN(pk) + 1
  {
  }

  lemma CopyFits<T>(src: seq<T>, ps: seq<nat>, k: nat)
    requires k < |ps| && (forall i :: 0 <= i < |Expand(ps)| ==> Expand(ps)[i] < |src|)
    ensures PkFirst(ps[k]) + PkN(ps[k]) + 1 <= |src|
    ensures |Expand(ps[..k])| + PkN(ps[k]) + 1 == |Expand(ps[..k + 1])| <= |Expand(ps)|
    ensures Expand(ps[..k + 1]) == Expand(ps)[..|Expand(ps[..k + 1])|]
    ensures Expand(ps[..k]) == Expand(ps)[..|Expand(ps[..k])|]
    ensures Gather(src, Expand(ps)[..|Expand(ps[..k + 1])|]) ==
      Gather(src, Expand(ps)[..|Expand(ps[..k])|]) + src[PkFirst(ps[k])..PkFirst(ps[k]) + PkN(ps[k]) + 1]
  {
    hide PkN, PkFirst, Expand;
    ExpandHas(ps, k);
    var a, b, f, n := Expand(ps[..k]), Expand(ps[..k + 1]), PkFirst(ps[k]), PkN(ps[k]) + 1;
    assert Expand(ps)[|b| - 1] == b[|b| - 1] == f + (n - 1);
    assert Expand(ps)[..|b|] == b && Expand(ps)[..|a|] == a;
  }

  /** `ss_cindexof`: the position of an instance of the subset. */
  method CIndexOf(ps: seq<nat>, inst: nat) returns (pos: nat)
    requires (forall p :: p in ps ==> PkOk(p)) && inst in Expand(ps) && inst < WORD
    ensures pos < |Expand(ps)| && Expand(ps)[pos] == inst && forall j :: 0 <= j < pos ==> Expand(ps)[j] != inst
  {
    hide PkOk, PkN, PkN1, PkFirst, Expand;
    var off, k := 0, 0;
    ExpandNone();
    assert ps[..0] == [];
    while true
      invariant k <= |ps| && off == |Expand(ps[..k])| <= |Expand(ps)| && Expand(ps[..k]) == Expand(ps)[..off]
      invariant forall j :: 0 <= j < off ==> Expand(ps)[j] != inst
      decreases |ps| - k
    {
      StillInside(ps, inst, k);
      ExpandHas(ps, k);
      PkRange16(ps[k]);
      var i, n := PkFirst(ps[k]), PkN(ps[k]);
      assert ps[k] in ps;
      PkParts(ps[k]);
      ghost var next := Expand(ps[..k + 1]);
      assert next == Expand(ps)[..|next|];
      if (inst - i) % WORD <= n {
        pos := (inst - i) % WORD + off;
        InInterval(inst, i, n);
        assert next[pos] == inst;
        return;
      }
      InInterval(inst, i, n);
      off := off + n + 1;
      k := k + 1;
    }
  }

  /** An instance that has not been met yet lies further on. */
  lemma StillInside(ps: seq<nat>, inst: nat, k: nat)
    requires k <= |ps| && inst in Expand(ps) && |Expand(ps[..k])| <= |Expand(ps)|
    requires forall j :: 0 <= j < |Expand(ps[..k])| ==> Expand(ps)[j] != inst
    ensures k < |ps|
  {
    hide Expand;
    assert ps[..|ps|] == ps;
  }

  lemma PkRange16(pk: nat)
    ensures PkFirst(pk) < 65536 && PkN(pk) < 65536
  {
  }

  /** The unsigned difference is small exactly inside the interval. */
  lemma InInterval(inst: nat, i: nat, n: nat)
    requires inst < WORD && i < 65536 && n < 65536
    ensures (inst - i) % WORD <= n <==> i <= inst <= i + n
    ensures i <= inst ==> (inst - i) % WORD == inst - i
  {
  }

  /** `(int16_t)(pk >> 16)`. */
  function Signed16(h: nat): int {
    if h % 65536 < 32768 then h % 65536 else h % 65536 - 65536
  }

  /** The signed field holds a length up to 32768; a longer one comes out 65536 too small. */
  lemma SignedLength(pk: nat)
    requires PkOk(pk)
    ensures Signed16(pk / 65536) == (if PkN(pk) <= 32768 then 0 else 65536) - PkN(pk)
  {
  }

  /** Intervals whose length does not fit the signed field. */
  function TooLong(ps: seq<nat>): (r: nat)
    ensures r == 0 <==> forall p :: p in ps ==> PkN(p) <= 32768
  {
    if ps == [] then 0 else (if PkN(ps[0]) <= 32768 then 0 else 1) + TooLong(ps[1..])
  }

  lemma {:induction false} TooLongNext(ps: seq<nat>, k: nat)
    requires k < |ps|
    ensures TooLong(ps[..k + 1]) == TooLong(ps[..k]) + (if PkN(ps[k]) <= 32768 then 0 else 1)
  {
    hide PkN;
    if k > 0 {
      TooLongNext(ps[1..], k - 1);
      assert ps[..k + 1][1..] == ps[1..][..k] && ps[..k][1..] == ps[1..][..k - 1];
    } else {
      assert ps[..1][1..] == [];
    }
  }

  /** `ss_csize`: the number of instances, exactly if every interval fits the signed field. */
  method CSize(ps: seq<nat>) returns (size: int)
    requires |ps| > 0 && forall p :: p in ps ==> PkOk(p)
    ensures size == |Expand(ps)| - 65536 * TooLong(ps)
    ensures size == |Expand(ps)| <==> forall p :: p in ps ==> PkN(p) <= 32768
  {
    hide PkN, PkFirst, Expand, Signed16, TooLong;
    size := |ps|;
    ExpandNone();
    NoneTooLong();
    assert ps[..0] == [];
    for k := 0 to |ps|
      invariant size == |ps| - k + |Expand(ps[..k])| - 65536 * TooLong(ps[..k])
    {
      ExpandHas(ps, k);
      TooLongNext(ps, k);
      assert ps[k] in ps;
      SignedLength(ps[k]);
      size := size - Signed16(ps[k] / 65536);
    }
    assert ps[..|ps|] == ps;
  }

  lemma NoneTooLong()
    ensures TooLong([]) == 0
  {
  }

  /** The position of `idx[k]` in the subset that represents `idx` is `k`. */
  method PositionOf(ss: Subset, idx: seq<nat>, k: nat) returns (pos: nat)
    requires Represents(ss, idx) && ss.Complex? && k < |idx| && idx[k] < WORD
    requires forall i, j :: 0 <= i < j < |idx| ==> idx[i] != idx[j]
    ensures pos == k
  {
    hide Expand, PkOk;
    pos := CIndexOf(ss.ps, idx[k]);
    assert idx[pos] == idx[k];
    assert !(pos < k) && !(k < pos);
  }
}
