/** Missing-value bitmaps of the solver: clearing runs by addition with carry, and finding set bits. */
module Bitmaps {

  function Pow2(n: nat): (r: nat)
    ensures r >= 1
  {
    if n == 0 then 1 else 2 * Pow2(n - 1)
  }

  lemma {:induction false} Pow2Less(i: nat, j: nat)
    requires i < j
    ensures Pow2(i) < Pow2(j)
    decreases j
  {
    if i < j - 1 {
      Pow2Less(i, j - 1);
    }
  }

  /** `uint64_t`. */
  type Word = w: nat | w < 18446744073709551616

  const WORD: nat := 18446744073709551616

  // ---------- words and their bits ----------

  /** The `n` lowest bits of `w`, lowest first. */
  function BitsOf(w: nat, n: nat): (b: seq<bool>)
    ensures |b| == n
    decreases n
  {
    if n == 0 then [] else [w % 2 == 1] + BitsOf(w / 2, n - 1)
  }

  function Val(b: seq<bool>): nat {
    if b == [] then 0 else (if b[0] then 1 else 0) + 2 * Val(b[1..])
  }

  lemma {:induction false} ValOfBits(w: nat, n: nat)
    requires w < Pow2(n)
    ensures Val(BitsOf(w, n)) == w
    decreases n
  {
    if n > 0 {
      ValOfBits(w / 2, n - 1);
      assert BitsOf(w, n)[1..] == BitsOf(w / 2, n - 1);
    }
  }

  lemma {:induction false} BitsOfVal(b: seq<bool>)
    ensures Val(b) < Pow2(|b|) && BitsOf(Val(b), |b|) == b
  {
    if b != [] {
      BitsOfVal(b[1..]);
      assert b == [b[0]] + b[1..];
    }
  }

  predicate Bit(w: nat, i: nat)
    requires i < 64
  {
    BitsOf(w, 64)[i]
  }

  // ---------- clearing a run ----------

  function Cleared(b: seq<bool>, s: nat, e: nat): (c: seq<bool>)
    requires s <= e <= |b|
    ensures |c| == |b| && forall i :: 0 <= i < |b| ==> c[i] == (b[i] && !(s <= i < e))
  {
    seq(|b|, i requires 0 <= i < |b| => b[i] && !(s <= i < e))
  }

  predicate AllSet(b: seq<bool>, s: nat, e: nat)
    requires e <= |b|
  {
    forall i :: s <= i < e ==> b[i]
  }

  /** Clearing `[s, e)` takes away at most `2^e - 2^s`, and exactly that if all the bits were set. */
  lemma {:induction false} ClearedVal(b: seq<bool>, s: nat, e: nat)
    requires s <= e <= |b|
    ensures Val(Cleared(b, s, e)) <= Val(b) <= Val(Cleared(b, s, e)) + (Pow2(e) - Pow2(s)) && Pow2(s) <= Pow2(e)
    ensures Val(b) == Val(Cleared(b, s, e)) + (Pow2(e) - Pow2(s)) <==> AllSet(b, s, e)
    decreases |b|
  {
    if e == 0 {
      assert Cleared(b, s, e) == b;
    } else {
      var t := b[1..];
      var s' := if s == 0 then 0 else s - 1;
      ClearedVal(t, s', e - 1);
      forall i | 0 <= i < |t|
        ensures Cleared(b, s, e)[1..][i] == Cleared(t, s', e - 1)[i]
      {
        assert b[i + 1] == t[i];
      }
      assert Cleared(b, s, e)[1..] == Cleared(t, s', e - 1);
      assert AllSet(b, s, e) <==> AllSet(t, s', e - 1) && (s == 0 ==> b[0]) by {
        forall i | s' <= i < e - 1
          ensures t[i] == b[i + 1]
        {
        }
        if AllSet(t, s', e - 1) && (s == 0 ==> b[0]) {
          forall i | s <= i < e
            ensures b[i]
          {
            assert i > 0 ==> t[i - 1];
          }
        }
      }
    }
  }

  /** What `bm_cleari` makes of a word: add at the start of the run, and take back the carry at its end. */
  function Carry(w: nat, s: nat, e: nat): int
    requires s < e <= 64
  {
    (w + Pow2(s) - (if e < 64 then Pow2(e) else 0)) % WORD
  }

  lemma Pow64()
    ensures Pow2(64) == WORD
  {
    Pow2Sum(4, 4);
    Pow2Sum(8, 8);
    Pow2Sum(16, 16);
    Pow2Sum(32, 32);
  }

  lemma {:induction false} Pow2Sum(a: nat, b: nat)
    ensures Pow2(a + b) == Pow2(a) * Pow2(b)
    decreases b
  {
    if b > 0 {
      Pow2Sum(a, b - 1);
      assert Pow2(a + b) == 2 * Pow2(a + (b - 1));
    }
  }

  /** The trick clears a run exactly if all of the run is set; a run with a hole comes out as something else. */
  lemma CarryIsCleared(w: Word, s: nat, e: nat)
    requires s < e <= 64
    ensures 0 <= Carry(w, s, e) < WORD
    ensures BitsOf(Carry(w, s, e), 64) == Cleared(BitsOf(w, 64), s, e) <==> forall i :: s <= i < e ==> Bit(w, i)
  {
    hide Pow2, Val, BitsOf;
    var b := BitsOf(w, 64);
    Pow64();
    ValOfBits(w, 64);
    ClearedVal(b, s, e);
    BitsOfVal(Cleared(b, s, e));
    ValOfBits(Carry(w, s, e), 64);
    Pow2Less(s, e);
    if e < 64 {
      Pow2Less(e, 64);
    }
    forall i: nat | i < 64
      ensures Bit(w, i) == b[i]
    {
    }
    if forall i :: s <= i < e ==> Bit(w, i) {
      forall i | s <= i < e
        ensures b[i]
      {
        assert Bit(w, i);
      }
    }
  }

  // ---------- bitmaps ----------

  predicate IsSet(bm: seq<Word>, n: nat) {
    n / 64 < |bm| && Bit(bm[n / 64], n % 64)
  }

  /** The part of the run `[inst, inst + num)` that lies in word `k`. */
  function From(k: nat, inst: nat): nat {
    if inst / 64 == k then inst % 64 else 0
  }

  function UpTo(k: nat, inst: nat, num: nat): nat
    requires num > 0 && inst / 64 <= k <= (inst + num - 1) / 64
  {
    if inst + num >= 64 * (k + 1) then 64 else inst + num - 64 * k
  }

  /** What `bm_cleari` makes of word `k`. */
  function WordAfter(w: Word, k: nat, inst: nat, num: nat): int
    requires num > 0
  {
    if inst / 64 <= k <= (inst + num - 1) / 64 then Carry(w, From(k, inst), UpTo(k, inst, num)) else w
  }

  /** One word of `bm_cleari`. */
  method ClearWord(bm: array<Word>, k: nat, s: nat, e: nat)
    requires k < bm.Length && s < e <= 64
    modifies bm
    ensures bm[k] == Carry(old(bm[k]), s, e)
    ensures forall l :: 0 <= l < bm.Length && l != k ==> bm[l] == old(bm[l])
  {
    hide BitsOf, Pow2;
    var m := (bm[k] + Pow2(s)) % WORD;
    m := (m - (if e < 64 then Pow2(e) else 0)) % WORD;
    assert m == Carry(bm[k], s, e);
    bm[k] := m;
  }

  /** `bm_cleari`, word by word. */
  method ClearI(bm: array<Word>, inst: nat, num: nat)
    requires num > 0 && (inst + num - 1) / 64 < bm.Length
    modifies bm
    ensures forall k: nat :: k < bm.Length ==> bm[k] == WordAfter(old(bm[k]), k, inst, num)
    ensures RunSet(old(bm[..]), inst, num) <==> IsCleared(old(bm[..]), bm[..], inst, num)
  {
    hide Bit, Carry, IsCleared, RunSet;
    var k, start := inst / 64, inst % 64;
    var end := start + num;
    ClearWord(bm, k, start, if end < 64 then end else 64);
    var left := num as int - (64 - start);
    while left > 0
      invariant inst / 64 <= k < bm.Length && left == inst + num - 64 * (k + 1)
      invariant forall l: nat :: l < bm.Length ==>
          bm[l] == if l <= k then WordAfter(old(bm[l]), l, inst, num) else old(bm[l])
    {
      k := k + 1;
      ClearWord(bm, k, 0, if left < 64 then left else 64);
      left := left - 64;
    }
    ClearedIffSet(old(bm[..]), bm[..], inst, num);
  }

  ghost predicate RunSet(bm: seq<Word>, inst: nat, num: nat) {
    forall n :: inst <= n < inst + num ==> IsSet(bm, n)
  }

  /** `b` is `a` without the run. */
  ghost predicate IsCleared(a: seq<Word>, b: seq<Word>, inst: nat, num: nat) {
    forall n: nat :: IsSet(b, n) <==> IsSet(a, n) && !(inst <= n < inst + num)
  }

  /** The trick on one word, seen bit by bit. */
  lemma CarryBits(w: Word, s: nat, e: nat)
    requires s < e <= 64
    ensures 0 <= Carry(w, s, e) < WORD
    ensures (forall i :: 0 <= i < 64 ==> (Bit(Carry(w, s, e), i) <==> Bit(w, i) && !(s <= i < e))) <==>
        forall i :: s <= i < e ==> Bit(w, i)
  {
    CarryIsCleared(w, s, e);
    hide BitsOf, Carry;
    var c := Carry(w, s, e);
    forall i | 0 <= i < 64
      ensures Bit(c, i) == BitsOf(c, 64)[i] && Cleared(BitsOf(w, 64), s, e)[i] == (Bit(w, i) && !(s <= i < e))
    {
    }
    if forall i :: 0 <= i < 64 ==> (Bit(c, i) <==> Bit(w, i) && !(s <= i < e)) {
      assert BitsOf(c, 64) == Cleared(BitsOf(w, 64), s, e);
    }
  }

  /** Over any number of words: exactly the run is cleared exactly if all of it was set. */
  lemma ClearedIffSet(a: seq<Word>, b: seq<Word>, inst: nat, num: nat)
    requires num > 0 && (inst + num - 1) / 64 < |a| == |b|
    requires forall k: nat :: k < |a| ==> b[k] == WordAfter(a[k], k, inst, num)
    ensures RunSet(a, inst, num) <==> IsCleared(a, b, inst, num)
  {
    hide Bit, Carry;
    if RunSet(a, inst, num) {
      forall n: nat
        ensures IsSet(b, n) <==> IsSet(a, n) && !(inst <= n < inst + num)
      {
        if n / 64 < |a| {
          WordCleared(a, b, inst, num, n / 64);
        }
      }
    }
    if IsCleared(a, b, inst, num) {
      forall n | inst <= n < inst + num
        ensures IsSet(a, n)
      {
        WordWasSet(a, b, inst, num, n);
      }
    }
  }

  lemma WordCleared(a: seq<Word>, b: seq<Word>, inst: nat, num: nat, k: nat)
    requires num > 0 && (inst + num - 1) / 64 < |a| == |b| && k < |a| && b[k] == WordAfter(a[k], k, inst, num)
    requires RunSet(a, inst, num)
    ensures forall i :: 0 <= i < 64 ==> (Bit(b[k], i) <==> Bit(a[k], i) && !(inst <= 64 * k + i < inst + num))
  {
    hide Bit, Carry;
    if inst / 64 <= k <= (inst + num - 1) / 64 {
      var s, e := From(k, inst), UpTo(k, inst, num);
      forall i | s <= i < e
        ensures Bit(a[k], i)
      {
        assert IsSet(a, 64 * k + i);
      }
      CarryBits(a[k], s, e);
    }
  }

  lemma WordWasSet(a: seq<Word>, b: seq<Word>, inst: nat, num: nat, n: nat)
    requires num > 0 && (inst + num - 1) / 64 < |a| == |b| && inst <= n < inst + num
    requires b[n / 64] == WordAfter(a[n / 64], n / 64, inst, num) && IsCleared(a, b, inst, num)
    ensures IsSet(a, n)
  {
    hide Bit, Carry;
    var k := n / 64;
    var s, e := From(k, inst), UpTo(k, inst, num);
    forall i | 0 <= i < 64
      ensures Bit(b[k], i) <==> Bit(a[k], i) && !(s <= i < e)
    {
      assert (64 * k + i) / 64 == k && (64 * k + i) % 64 == i;
      assert IsSet(b, 64 * k + i) <==> IsSet(a, 64 * k + i) && !(inst <= 64 * k + i < inst + num);
    }
    CarryBits(a[k], s, e);
    assert s <= n % 64 < e;
  }

  // ---------- finding a set bit ----------

  /** `w & (~0 << p)`. */
  function HighBits(w: nat, p: nat): (r: nat)
    ensures r <= w
    decreases p
  {
    if p == 0 then w else 2 * HighBits(w / 2, p - 1)
  }

  lemma {:induction false} HighBitsAre(w: nat, p: nat, n: nat)
    requires p <= n
    ensures forall i :: 0 <= i < n ==> BitsOf(HighBits(w, p), n)[i] == (BitsOf(w, n)[i] && i >= p)
    decreases n
  {
    if p > 0 {
      var h := HighBits(w / 2, p - 1);
      HighBitsAre(w / 2, p - 1, n - 1);
      assert (2 * h) / 2 == h && (2 * h) % 2 == 0;
      forall i | 0 <= i < n
        ensures BitsOf(2 * h, n)[i] == (BitsOf(w, n)[i] && i >= p)
      {
        if i > 0 {
          assert BitsOf(2 * h, n)[i] == BitsOf(h, n - 1)[i - 1] && BitsOf(w, n)[i] == BitsOf(w / 2, n - 1)[i - 1];
        }
      }
    }
  }

  /** `__builtin_ctzl`. */
  function Ctz(w: nat): nat
    requires w > 0
  {
    if w % 2 == 1 then 0 else 1 + Ctz(w / 2)
  }

  lemma {:induction false} CtzIsLowest(w: nat, n: nat)
    requires 0 < w < Pow2(n)
    ensures Ctz(w) < n && BitsOf(w, n)[Ctz(w)] && forall i :: 0 <= i < Ctz(w) ==> !BitsOf(w, n)[i]
    decreases n
  {
    if w % 2 == 0 {
      CtzIsLowest(w / 2, n - 1);
      forall i | 0 <= i < n && i > 0
        ensures BitsOf(w, n)[i] == BitsOf(w / 2, n - 1)[i - 1]
      {
      }
    }
  }

  lemma {:induction false} ZeroBits(n: nat)
    ensures forall i :: 0 <= i < n ==> !BitsOf(0, n)[i]
  {
    if n > 0 {
      ZeroBits(n - 1);
    }
  }

  /** What the masked word `m` says about the bits of `w` from `p` on. */
  lemma FoundInWord(w: Word, p: nat)
    requires p < 64
    ensures var m := HighBits(w, p);
      if m == 0 then forall i :: p <= i < 64 ==> !Bit(w, i)
      else Ctz(m) < 64 && p <= Ctz(m) && Bit(w, Ctz(m)) && forall i :: p <= i < Ctz(m) ==> !Bit(w, i)
  {
    hide Pow2;
    var m := HighBits(w, p);
    HighBitsAre(w, p, 64);
    Pow64();
    if m == 0 {
      ZeroBits(64);
    } else {
      CtzIsLowest(m, 64);
    }
    hide BitsOf, Ctz, HighBits;
  }

  /** `bm_findi`: the least set bit in `[inst, end)`. */
  method FindI(bm: array<Word>, inst: nat, end: nat) returns (found: bool, at: nat)
    requires inst <= end && end / 64 < bm.Length
    ensures found ==> inst <= at < end && IsSet(bm[..], at) && forall n :: inst <= n < at ==> !IsSet(bm[..], n)
    ensures !found ==> forall n :: inst <= n < end ==> !IsSet(bm[..], n)
  {
    hide Bit, HighBits, Ctz;
    var k := inst / 64;
    var m := HighBits(bm[k], inst % 64);
    ghost var from: nat := inst % 64;
    while true
      invariant inst / 64 <= k <= end / 64 && from < 64 && m == HighBits(bm[k], from)
      invariant inst <= 64 * k + from && (forall n :: inst <= n < 64 * k + from ==> !IsSet(bm[..], n))
      decreases end / 64 - k
    {
      FoundInWord(bm[k], from);
      if m != 0 {
        at := 64 * k + Ctz(m);
        WordScanned(bm[..], k, from, Ctz(m), inst);
        assert IsSet(bm[..], at);
        found := at < end;
        return;
      }
      WordScanned(bm[..], k, from, 64, inst);
      if k == end / 64 {
        return false, 0;
      }
      k := k + 1;
      from := 0;
      m := bm[k];
      assert m == HighBits(bm[k], 0) by {
        NoMask(bm[k]);
      }
    }
  }

  lemma NoMask(w: nat)
    ensures HighBits(w, 0) == w
  {
  }

  lemma WordScanned(bm: seq<Word>, k: nat, from: nat, upto: nat, inst: nat)
    requires k < |bm| && from <= upto <= 64 && forall i :: from <= i < upto ==> !Bit(bm[k], i)
    requires inst <= 64 * k + from && forall n :: inst <= n < 64 * k + from ==> !IsSet(bm, n)
    ensures forall n :: inst <= n < 64 * k + upto ==> !IsSet(bm, n)
  {
    hide Bit;
    forall n | 64 * k + from <= n < 64 * k + upto
      ensures !IsSet(bm, n)
    {
      assert n / 64 == k && n % 64 == n - 64 * k;
    }
  }

  // ---------- asking for missing values ----------

  /** The answer to a request for instance `i`: a run of instances whose values are supplied; none if it is empty. */
  type Supplier = (seq<Word>, nat) -> (nat, nat)

  /** Only what is missing is supplied. */
  ghost predicate Honest(supply: Supplier) {
    forall b, i :: SuppliesMissing(supply, b, i)
  }

  ghost predicate SuppliesMissing(supply: Supplier, b: seq<Word>, i: nat) {
    var (lo, num) := supply(b, i);
    num > 0 ==> RunSet(b, lo, num)
  }

  /** `fhkS_setvaluei`, once the bitmap is there: a run that leaves the space, or is all of it, or whose first instance
      is not missing, is refused. An accepted run is cleared, and nothing else, exactly if all of it was missing. */
  method SetValues(bm: array<Word>, lo: nat, num: nat, shape: nat) returns (ok: bool)
    requires shape <= 64 * bm.Length
    modifies bm
    ensures ok <==> num == 0 || (lo + num <= shape && num < shape && old(IsSet(bm[..], lo)))
    ensures !ok || num == 0 ==> bm[..] == old(bm[..])
    ensures ok && num > 0 ==> (RunSet(old(bm[..]), lo, num) <==> IsCleared(old(bm[..]), bm[..], lo, num))
  {
    hide IsSet, IsCleared, RunSet, WordAfter;
    if num == 0 {
      return true;
    }
    if lo + num > shape || num - lo == shape {
      return false;
    }
    ok := IsSetNow(bm, lo);
    if ok {
      ClearI(bm, lo, num);
    }
  }

  /** Increasing requests in the range. */
  ghost predicate InOrder(asked: seq<nat>, inst: nat, end: nat) {
    && (forall i :: 0 <= i < |asked| ==> inst <= asked[i] < end)
    && (forall i, j :: 0 <= i < j < |asked| ==> asked[i] < asked[j])
  }

  /** The instances asked for were missing. */
  ghost predicate WereMissing(asked: seq<nat>, was: seq<Word>) {
    forall i :: 0 <= i < |asked| ==> IsSet(was, asked[i])
  }

  lemma AskedMore(asked: seq<nat>, inst: nat, end: nat, n: nat)
    requires InOrder(asked, inst, end) && inst <= n < end && (asked != [] ==> asked[|asked| - 1] < n)
    ensures InOrder(asked + [n], inst, end)
  {
  }

  lemma MissingMore(asked: seq<nat>, was: seq<Word>, n: nat)
    requires WereMissing(asked, was) && IsSet(was, n)
    ensures WereMissing(asked + [n], was)
  {
    hide IsSet;
  }

  lemma NotAsked(inst: nat, end: nat, was: seq<Word>)
    ensures InOrder([], inst, end) && WereMissing([], was)
  {
  }

  /** No bit of `b` that `a` does not have. */
  ghost predicate NoneNew(a: seq<Word>, b: seq<Word>) {
    forall n :: IsSet(b, n) ==> IsSet(a, n)
  }

  ghost predicate NoneLeft(b: seq<Word>, inst: nat, end: nat) {
    forall n :: inst <= n < end ==> !IsSet(b, n)
  }

  lemma ClearedNew(a: seq<Word>, b: seq<Word>, c: seq<Word>, lo: nat, num: nat)
    requires NoneNew(a, b) && IsCleared(b, c, lo, num)
    ensures NoneNew(a, c) && NoneNew(b, c)
  {
    hide IsSet;
  }

  lemma StillNone(a: seq<Word>, b: seq<Word>, inst: nat, end: nat)
    requires NoneLeft(a, inst, end) && NoneNew(a, b)
    ensures NoneLeft(b, inst, end)
  {
    hide IsSet;
  }

  /** `bm_isset`. */
  method IsSetNow(bm: array<Word>, n: nat) returns (b: bool)
    ensures b == IsSet(bm[..], n)
  {
    b := n / 64 < bm.Length && Bit(bm[n / 64], n % 64);
  }

  /** The answer to a request is accepted, and the instance asked for is no longer missing. */
  ghost predicate Served(b: seq<Word>, b': seq<Word>, n: nat, supply: Supplier, shape: nat) {
    Accepted(b, supply(b, n), shape) && !IsSet(b', n)
  }

  ghost predicate Accepted(b: seq<Word>, answer: (nat, nat), shape: nat) {
    answer.1 == 0 || (answer.0 + answer.1 <= shape && answer.1 < shape && IsSet(b, answer.0))
  }

  /** `n` is the first missing instance of `[inst, end)`. */
  ghost predicate FirstMissing(b: seq<Word>, n: nat, inst: nat, end: nat) {
    inst <= n < end && IsSet(b, n) && forall l :: inst <= l < n ==> !IsSet(b, l)
  }

  /** Where request `i` starts looking. */
  function LookFrom(asked: seq<nat>, i: nat, inst: nat): nat
    requires i <= |asked|
  {
    if i == 0 then inst else asked[i - 1]
  }

  /** The bitmap before every request, and at the end. Each request is for the first instance that is missing after the
      one before, and all but the last have been served. */
  ghost predicate Requests(bms: seq<seq<Word>>, asked: seq<nat>, inst: nat, end: nat, supply: Supplier, shape: nat) {
    && |bms| == |asked| + 1
    && (forall i: nat :: i < |asked| ==> FirstMissing(bms[i], asked[i], LookFrom(asked, i, inst), end))
    && (forall i: nat :: i < |asked| - 1 ==> ServedAt(bms, asked, i, supply, shape))
  }

  ghost predicate ServedAt(bms: seq<seq<Word>>, asked: seq<nat>, i: nat, supply: Supplier, shape: nat) {
    i < |asked| && i + 1 < |bms| && Served(bms[i], bms[i + 1], asked[i], supply, shape)
  }

  /** The last request, too. */
  ghost predicate AllServed(bms: seq<seq<Word>>, asked: seq<nat>, supply: Supplier, shape: nat) {
    |bms| == |asked| + 1 && (asked != [] ==> ServedAt(bms, asked, |asked| - 1, supply, shape))
  }

  /** Every answer is a run of missing instances, shorter than the space, with the one asked for. */
  ghost predicate Helpful(supply: Supplier, shape: nat) {
    forall b, i: nat :: IsSet(b, i) && i < shape ==> Helps(b, supply(b, i), i, shape)
  }

  ghost predicate Helps(b: seq<Word>, answer: (nat, nat), i: nat, shape: nat) {
    var (lo, num) := answer;
    num < shape && lo <= i < lo + num <= shape && RunSet(b, lo, num)
  }

  lemma HelpsServes(b: seq<Word>, b': seq<Word>, i: nat, supply: Supplier, shape: nat)
    requires Helps(b, supply(b, i), i, shape)
    ensures var (lo, num) := supply(b, i); Accepted(b, (lo, num), shape) && num > 0 && RunSet(b, lo, num)
    ensures var (lo, num) := supply(b, i); IsCleared(b, b', lo, num) ==> !IsSet(b', i)
  {
    hide IsSet;
  }

  lemma NoRequests(b: seq<Word>, inst: nat, end: nat, supply: Supplier, shape: nat)
    ensures Requests([b], [], inst, end, supply, shape) && AllServed([b], [], supply, shape)
  {
  }

  lemma NextRequest(bms: seq<seq<Word>>, asked: seq<nat>, inst: nat, end: nat, supply: Supplier, shape: nat, n: nat,
      b: seq<Word>)
    requires Requests(bms, asked, inst, end, supply, shape) && AllServed(bms, asked, supply, shape)
    requires FirstMissing(bms[|asked|], n, LookFrom(asked, |asked|, inst), end)
    ensures Requests(bms + [b], asked + [n], inst, end, supply, shape)
    ensures AllServed(bms + [b], asked + [n], supply, shape) <==> Served(bms[|asked|], b, n, supply, shape)
  {
    hide Served, FirstMissing, ServedAt;
    var cms, bsked := bms + [b], asked + [n];
    forall i: nat | i < |bsked|
      ensures FirstMissing(cms[i], bsked[i], LookFrom(bsked, i, inst), end)
    {
      assert LookFrom(bsked, i, inst) == LookFrom(asked, i, inst);
    }
    forall i: nat | i < |asked|
      ensures ServedAt(cms, bsked, i, supply, shape)
    {
      StillServed(bms, asked, i, supply, shape, n, b);
    }
    LastServed(bms, asked, supply, shape, n, b);
  }

  lemma StillServed(bms: seq<seq<Word>>, asked: seq<nat>, i: nat, supply: Supplier, shape: nat, n: nat, b: seq<Word>)
    requires |bms| == |asked| + 1 && ServedAt(bms, asked, i, supply, shape)
    ensures ServedAt(bms + [b], asked + [n], i, supply, shape)
  {
    hide Served;
  }

  lemma LastServed(bms: seq<seq<Word>>, asked: seq<nat>, supply: Supplier, shape: nat, n: nat, b: seq<Word>)
    requires |bms| == |asked| + 1
    ensures ServedAt(bms + [b], asked + [n], |asked|, supply, shape) <==> Served(bms[|asked|], b, n, supply, shape)
  {
    hide Served;
  }

  /** `S_get_missingi`: asks for missing instances of `[inst, end)`, in increasing order, and ends. An answer that is
      refused, or leaves the instance asked for missing, is an error, and there is no other. `clean` says that all
      answers cleared the run they supplied: then only missing instances were asked for, none became missing, and
      without an error none is left. */
  method GetMissing(bm: array<Word>, inst: nat, end: nat, shape: nat, supply: Supplier)
    returns (ok: bool, ghost asked: seq<nat>, ghost bms: seq<seq<Word>>, ghost clean: bool)
    requires inst <= end && end / 64 < bm.Length && shape <= 64 * bm.Length
    modifies bm
    ensures InOrder(asked, inst, end)
    ensures Requests(bms, asked, inst, end, supply, shape) && bms[0] == old(bm[..]) && bms[|asked|] == bm[..]
    ensures ok <==> AllServed(bms, asked, supply, shape)
    ensures ok ==> forall n :: LookFrom(asked, |asked|, inst) <= n < end ==> !IsSet(bm[..], n)
    ensures clean ==>
        NoneNew(old(bm[..]), bm[..]) && WereMissing(asked, old(bm[..])) && (ok ==> NoneLeft(bm[..], inst, end))
    ensures Honest(supply) ==> clean
    ensures Helpful(supply, shape) && end <= shape ==> ok && clean
  {
    hide IsSet, InOrder, WereMissing, NoneNew, NoneLeft, IsCleared, RunSet, Honest, Helpful, Served, Requests,
        AllServed, FirstMissing;
    var at := inst;
    asked, bms, clean := [], [bm[..]], true;
    NotAsked(inst, end, bm[..]);
    NoRequests(bm[..], inst, end, supply, shape);
    Unchanged(bm[..], inst);
    while true
      invariant inst <= at <= end && InOrder(asked, inst, end)
      invariant Requests(bms, asked, inst, end, supply, shape) && AllServed(bms, asked, supply, shape)
      invariant |bms| == |asked| + 1 && bms[0] == old(bm[..]) && bms[|asked|] == bm[..]
      invariant at == LookFrom(asked, |asked|, inst)
      invariant clean ==> NoneNew(old(bm[..]), bm[..]) && WereMissing(asked, old(bm[..])) && NoneLeft(bm[..], inst, at)
      invariant asked != [] ==> asked[|asked| - 1] <= at && !IsSet(bm[..], asked[|asked| - 1])
      invariant Honest(supply) || (Helpful(supply, shape) && end <= shape) ==> clean
      decreases end - at, if IsSet(bm[..], at) then 1 else 0
    {
      var found, next := FindI(bm, at, end);
      Scanned(bm[..], inst, at, if found then next else end);
      if !found {
        ok := true;
        return;
      }
      AskedMore(asked, inst, end, next);
      if clean {
        StillMissing(old(bm[..]), bm[..], next);
        MissingMore(asked, old(bm[..]), next);
      }
      ghost var b := bm[..];
      IsFirst(b, next, at, end);
      HelpAt(supply, shape, b, next);
      ok, clean := Ask(bm, inst, next, shape, supply, clean, old(bm[..]));
      NextRequest(bms, asked, inst, end, supply, shape, next, bm[..]);
      asked, bms := asked + [next], bms + [bm[..]];
      var still := IsSetNow(bm, next);
      AskServed(b, bm[..], next, supply, shape, ok);
      if Helps(b, supply(b, next), next, shape) {
        HelpsServes(b, bm[..], next, supply, shape);
      }
      if !ok {
        return;
      }
      if still {
        ok := false;
        return;
      }
      at := next;
    }
  }

  lemma IsFirst(b: seq<Word>, n: nat, inst: nat, end: nat)
    requires inst <= n < end && IsSet(b, n) && forall l :: inst <= l < n ==> !IsSet(b, l)
    ensures FirstMissing(b, n, inst, end)
  {
    hide IsSet;
  }

  lemma HelpAt(supply: Supplier, shape: nat, b: seq<Word>, n: nat)
    requires IsSet(b, n)
    ensures Helpful(supply, shape) && n < shape ==> Helps(b, supply(b, n), n, shape)
  {
    hide IsSet, RunSet;
  }

  lemma AskServed(b: seq<Word>, b': seq<Word>, n: nat, supply: Supplier, shape: nat, ok: bool)
    requires ok <==> Accepted(b, supply(b, n), shape)
    ensures Served(b, b', n, supply, shape) <==> ok && !IsSet(b', n)
  {
    hide IsSet;
  }

  lemma Unchanged(a: seq<Word>, inst: nat)
    ensures NoneNew(a, a) && NoneLeft(a, inst, inst)
  {
  }

  lemma StillMissing(a: seq<Word>, b: seq<Word>, n: nat)
    requires NoneNew(a, b) && IsSet(b, n)
    ensures IsSet(a, n)
  {
    hide IsSet;
  }

  /** What `bm_findi` has passed over is not missing. */
  lemma Scanned(b: seq<Word>, inst: nat, at: nat, next: nat)
    requires inst <= at && forall n :: at <= n < next ==> !IsSet(b, n)
    ensures NoneLeft(b, inst, at) ==> NoneLeft(b, inst, next)
  {
    hide IsSet;
  }

  /** `J_vref` and the `fhkS_setvaluei` that answers it. */
  method Ask(bm: array<Word>, ghost inst: nat, next: nat, shape: nat, supply: Supplier, ghost before: bool,
      ghost was: seq<Word>)
    returns (ok: bool, ghost clean: bool)
    requires shape <= 64 * bm.Length && (before ==> NoneNew(was, bm[..]) && NoneLeft(bm[..], inst, next))
    modifies bm
    ensures clean ==> before && NoneNew(was, bm[..]) && NoneLeft(bm[..], inst, next)
    ensures Honest(supply) && before ==> clean
    ensures var (lo, num) := supply(old(bm[..]), next);
      && (ok <==> num == 0 || (lo + num <= shape && num < shape && old(IsSet(bm[..], lo))))
      && (clean <==> before && (!ok || num == 0 || RunSet(old(bm[..]), lo, num)))
      && (ok && num > 0 && clean ==> IsCleared(old(bm[..]), bm[..], lo, num))
  {
    hide IsSet, NoneNew, NoneLeft, IsCleared, RunSet;
    ghost var now := bm[..];
    assert Honest(supply) ==> SuppliesMissing(supply, now, next);
    var (lo, num) := supply(bm[..], next);
    ok := SetValues(bm, lo, num, shape);
    clean := before && (!ok || num == 0 || RunSet(now, lo, num));
    if clean && ok && num > 0 {
      ClearedNew(was, now, bm[..], lo, num);
      StillNone(now, bm[..], inst, next);
    }
  }
}
