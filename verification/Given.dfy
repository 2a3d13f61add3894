/** The bitmaps of all given variables: absent until the first answer, one each after a partial answer, and shared
    all-zero ones for variables that were answered at once. */
module Givens {
  import opened Sims
  import opened Bitmaps

  /** Words that `bm_alloc` asks for. */
  function Words(n: nat): (w: nat)
    ensures n <= 64 * w
  {
    AlignUp(n, 64) / 8
  }

  predicate Blank(bm: seq<Word>) {
    forall k :: 0 <= k < |bm| ==> bm[k] == 0
  }

  class Given {
    /** Instances of each given variable. */
    const shapes: seq<nat>
    // `s_vmstate`; a variable that is not in it has no bitmap
    var missing: map<nat, array<Word>>
    // `bm0_intern` and `bm0_size`
    var zeros: array?<Word>
    var size: nat
    // all bitmaps that were ever recycled
    ghost var blanks: set<array<Word>>

    constructor (shapes: seq<nat>)
      ensures Valid() && this.shapes == shapes && missing == map[]
    {
      this.shapes, missing, zeros, size, blanks := shapes, map[], null, 0, {};
    }

    ghost predicate Valid()
      reads this, missing.Values, blanks
    {
      && (forall x :: x in missing ==> x < |shapes| && shapes[x] <= 64 * missing[x].Length)
      && (forall x, y :: x in missing && y in missing && x != y && missing[x] == missing[y] ==> missing[x] in blanks)
      && (forall b :: b in blanks ==> Blank(b[..]))
      && (if zeros == null then size == 0 else zeros in blanks && size <= 64 * zeros.Length)
    }

    /** The bit of instance `i`: without a bitmap, everything is missing. */
    ghost predicate Missing(x: nat, i: nat)
      reads this, missing.Values
    {
      x < |shapes| && if x in missing then IsSet(missing[x][..], i) else i / 64 < Words(shapes[x])
    }

    /** Nothing, all at once if there is no bitmap, or a run of the space whose first instance is missing. */
    ghost predicate Accepts(x: nat, inst: nat, n: nat)
      requires x < |shapes|
      reads this, missing.Values
    {
      || n == 0
      || (inst + n <= shapes[x] && (if n - inst == shapes[x] then x !in missing else Missing(x, inst)))
    }

    /** `bm_alloc`. */
    method Alloc(num: nat, init: Word) returns (bm: array<Word>)
      ensures fresh(bm) && bm.Length == Words(num) && forall k :: 0 <= k < bm.Length ==> bm[k] == init
    {
      bm := new Word[Words(num)](_ => init);
    }

    /** `bm_getall0`: the recycled bitmap, or a new one that is large enough for all groups. */
    method GetAll0(n: nat) returns (bm: array<Word>)
      requires Valid() && n > 0
      modifies this`zeros, this`size, this`blanks
      ensures Valid() && bm in blanks && n <= 64 * bm.Length && Blank(bm[..])
      ensures old(blanks) <= blanks && (bm in old(blanks) || fresh(bm))
    {
      if size >= n {
        return zeros;
      }
      var num := n;
      for i := 0 to |shapes|
        invariant num >= n
      {
        num := if shapes[i] > num + 1 then shapes[i] - 1 else num;
      }
      num := num + 1;
      bm := Alloc(num, 0);
      zeros, size := bm, AlignUp(num, 64);
      blanks := blanks + {bm};
    }

    /** `fhkS_setvaluei`. A run that leaves the space is refused; so is one whose first instance is not missing, and one
        that is all of the space if there is a bitmap already. An accepted run is no longer missing, exactly that, if
        and only if all of it was missing. Other variables do not notice. */
    method SetValue(x: nat, inst: nat, n: nat) returns (ok: bool)
      requires Valid() && x < |shapes|
      modifies this`missing, this`zeros, this`size, this`blanks, if x in missing then {missing[x]} else {}
      ensures Valid()
      ensures ok == old(Accepts(x, inst, n))
      ensures !ok || n == 0 ==> forall i: nat :: Missing(x, i) == old(Missing(x, i))
      ensures forall y: nat, i: nat :: y != x ==> Missing(y, i) == old(Missing(y, i))
      ensures ok && n > 0 && n - inst == shapes[x] ==> forall i: nat :: !Missing(x, i)
      ensures ok && n > 0 && n - inst != shapes[x] ==>
        ((forall i: nat :: inst <= i < inst + n ==> old(Missing(x, i))) <==>
         (forall i: nat :: Missing(x, i) <==> old(Missing(x, i)) && !(inst <= i < inst + n)))
    {
      hide Missing, Valid;
      if n == 0 {
        ok := true;
      } else if inst + n > shapes[x] {
        ok := false;
      } else if n - inst == shapes[x] {
        ok := SetAll(x);
      } else {
        ok := SetRun(x, inst, n);
      }
    }

    /** All values at once: a recycled bitmap will do. */
    method SetAll(x: nat) returns (ok: bool)
      requires Valid() && x < |shapes| && shapes[x] > 0
      modifies this`missing, this`zeros, this`size, this`blanks
      ensures Valid() && ok == (x !in old(missing))
      ensures !ok ==> forall i: nat :: Missing(x, i) == old(Missing(x, i))
      ensures forall y: nat, i: nat :: y != x ==> Missing(y, i) == old(Missing(y, i))
      ensures ok ==> forall i: nat :: !Missing(x, i)
    {
      hide IsSet, Blank, Words;
      ok := x !in missing;
      if ok {
        var bm := GetAll0(shapes[x]);
        BlankUnset(bm[..]);
        missing := missing[x := bm];
      }
    }

    /** Some values: a bitmap of the variable's own loses the run. */
    method SetRun(x: nat, inst: nat, n: nat) returns (ok: bool)
      requires Valid() && x < |shapes| && n > 0 && inst + n <= shapes[x] && n < shapes[x]
      modifies this`missing, if x in missing then {missing[x]} else {}
      ensures Valid() && ok == old(Missing(x, inst))
      ensures !ok ==> forall i: nat :: Missing(x, i) == old(Missing(x, i))
      ensures forall y: nat, i: nat :: y != x ==> Missing(y, i) == old(Missing(y, i))
      ensures ok ==>
        ((forall i: nat :: inst <= i < inst + n ==> old(Missing(x, i))) <==>
         (forall i: nat :: Missing(x, i) <==> old(Missing(x, i)) && !(inst <= i < inst + n)))
    {
      hide IsSet, Blank, Words;
      if x in missing {
        if missing[x] in blanks {
          BlankUnset(missing[x][..]);
        }
        ghost var a := missing[x][..];
        ok := SetValues(missing[x], inst, n, shapes[x]);
        SameRun(a, missing[x][..], inst, n);
        assert forall i: nat :: old(Missing(x, i)) == IsSet(a, i) && Missing(x, i) == IsSet(missing[x][..], i);
      } else {
        var bm := Alloc(shapes[x], WORD - 1);
        AllSetAt(bm[..]);
        ghost var a := bm[..];
        ok := SetValues(bm, inst, n, shapes[x]);
        SameRun(a, bm[..], inst, n);
        missing := missing[x := bm];
        assert forall i: nat :: old(Missing(x, i)) == IsSet(a, i) && Missing(x, i) == IsSet(bm[..], i);
      }
    }
  }

  lemma SameRun(a: seq<Word>, b: seq<Word>, inst: nat, n: nat)
    ensures RunSet(a, inst, n) <==> forall i: nat :: inst <= i < inst + n ==> IsSet(a, i)
    ensures IsCleared(a, b, inst, n) <==>
      forall i: nat :: IsSet(b, i) <==> IsSet(a, i) && !(inst <= i < inst + n)
  {
    hide IsSet;
  }

  lemma BlankUnset(bm: seq<Word>)
    requires Blank(bm)
    ensures forall i: nat :: !IsSet(bm, i)
  {
    hide BitsOf;
    ZeroBits(64);
  }

  lemma {:induction false} OnesAt(n: nat, i: nat)
    requires i < n
    ensures BitsOf(Pow2(n) - 1, n)[i]
  {
    assert (Pow2(n) - 1) / 2 == Pow2(n - 1) - 1 && (Pow2(n) - 1) % 2 == 1;
    if i > 0 {
      OnesAt(n - 1, i - 1);
    }
  }

  lemma AllSetAt(bm: seq<Word>)
    requires forall k :: 0 <= k < |bm| ==> bm[k] == WORD - 1
    ensures forall i: nat :: IsSet(bm, i) <==> i / 64 < |bm|
  {
    hide BitsOf, Pow2;
    Pow64();
    forall i: nat | i / 64 < |bm|
      ensures IsSet(bm, i)
    {
      OnesAt(64, i % 64);
    }
  }
}
