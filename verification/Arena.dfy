/** The arena allocator: a list of chunks that grow, and a pointer that moves through them. */
module Arenas {
  import opened Sims

  /** Addresses `[mem, end)` of one chunk. */
  datatype Chunk = Chunk(mem: nat, end: nat)

  /** What has been handed out. */
  datatype Block = Block(at: nat, size: nat)

  datatype Given = Nothing | Given(at: nat)

  predicate Apart(a: Chunk, b: Chunk) {
    a.end <= b.mem || b.end <= a.mem
  }

  predicate Disjoint(a: Block, b: Block) {
    a.at + a.size <= b.at || b.at + b.size <= a.at
  }

  predicate Inside(b: Block, c: Chunk) {
    c.mem <= b.at && b.at + b.size < c.end
  }

  /** `bump` from `mem` on: the block has to end strictly before the end. */
  predicate Bumps(mem: nat, size: nat, align: nat, end: nat)
    requires align > 0
  {
    AlignUp(mem, align) + size < end
  }

  /** The size of a new chunk: doubled at least once, and until the block fits. */
  function Doubled(n: nat, need: nat): (r: nat)
    requires n > 0
    ensures r >= n && r >= need
    decreases need - n
  {
    if n < need then Doubled(2 * n, need) else n
  }

  /** `n`, doubled `k` times. */
  function Twice(n: nat, k: nat): nat {
    if k == 0 then n else 2 * Twice(n, k - 1)
  }

  /** It is doubled just as often as needed. */
  lemma {:induction false} DoubledEnough(n: nat, need: nat) returns (k: nat)
    requires n > 0
    ensures Doubled(n, need) == Twice(n, k) >= need && (k > 0 ==> Twice(n, k - 1) < need)
    decreases need - n
  {
    k := 0;
    if n < need {
      k := DoubledEnough(2 * n, need);
      TwiceTwo(n, k);
      if k > 0 {
        TwiceTwo(n, k - 1);
      }
      k := k + 1;
    }
  }

  lemma {:induction false} TwiceTwo(n: nat, k: nat)
    ensures Twice(2 * n, k) == Twice(n, k + 1)
  {
    if k > 0 {
      TwiceTwo(n, k - 1);
    }
  }

  /** `malloc` returns memory that no chunk uses. */
  ghost predicate Fresh(malloc: (seq<Chunk>, nat) -> nat) {
    forall cs, n, i :: 0 <= i < |cs| ==> Apart(cs[i], Chunk(malloc(cs, n), malloc(cs, n) + n))
  }

  class Arena {
    const malloc: (seq<Chunk>, nat) -> nat
    var chunks: seq<Chunk>
    var cur: nat
    var mem: nat
    // everything handed out since the last reset
    ghost var live: seq<Block>

    constructor (malloc: (seq<Chunk>, nat) -> nat, size: nat)
      requires Fresh(malloc) && size > 0
      ensures Valid() && live == [] && |chunks| == 1 && cur == 0 && chunks[0].end == chunks[0].mem + size
    {
      this.malloc := malloc;
      var at := malloc([], size);
      chunks, cur, mem := [Chunk(at, at + size)], 0, at;
      live := [];
    }

    /** A live block lies in the present chunk, below the pointer, or in an earlier one. */
    ghost predicate Placed(b: Block)
      reads this`chunks, this`cur, this`mem
    {
      exists i :: 0 <= i <= cur && i < |chunks| && Inside(b, chunks[i]) && (i == cur ==> b.at + b.size <= mem)
    }

    ghost predicate ChunksOk()
      reads this`chunks
    {
      && (forall i :: 0 <= i < |chunks| ==> chunks[i].mem < chunks[i].end)
      && (forall i, j :: 0 <= i < j < |chunks| ==> Apart(chunks[i], chunks[j]))
    }

    ghost predicate Valid()
      reads this
    {
      && Fresh(malloc) && ChunksOk() && cur < |chunks| && chunks[cur].mem <= mem <= chunks[cur].end
      && (forall k :: 0 <= k < |live| ==> Placed(live[k]))
      && (forall k, l :: 0 <= k < l < |live| ==> Disjoint(live[k], live[l]))
    }

    /** The block fits behind the pointer, or into a later chunk of the list. */
    predicate Fits(size: nat, align: nat)
      requires align > 0 && cur < |chunks|
      reads this`chunks, this`cur, this`mem
    {
      Bumps(mem, size, align, chunks[cur].end)
          || exists i :: cur < i < |chunks| && Bumps(chunks[i].mem, size, align, chunks[i].end)
    }

    /** The chunk that is added when it does not. */
    function NewChunk(size: nat, align: nat): Chunk
      requires align > 0 && |chunks| > 0 && chunks[|chunks| - 1].mem < chunks[|chunks| - 1].end
      reads this`chunks
    {
      var last := chunks[|chunks| - 1];
      var n := Doubled(2 * (last.end - last.mem), size + align - 1);
      Chunk(malloc(chunks, n), malloc(chunks, n) + n)
    }

    /** `arena_alloc`. What is handed out is aligned, lies inside one chunk, and is apart from all handed out since
        the last reset. Nothing is handed out exactly if the block does not fit, and not into the new chunk either. */
    method Alloc(size: nat, align: nat) returns (p: Given)
      requires Valid() && align > 0
      modifies this`chunks, this`cur, this`mem, this`live
      ensures Valid() && old(chunks) <= chunks
      ensures p.Nothing? <==>
          !old(Fits(size, align)) && !old(Bumps(NewChunk(size, align).mem, size, align, NewChunk(size, align).end))
      ensures p.Nothing? ==> live == old(live)
      ensures p.Given? ==> p.at % align == 0 && live == old(live) + [Block(p.at, size)]
      ensures p.Given? ==> Inside(Block(p.at, size), chunks[cur]) && forall k :: 0 <= k < |old(live)| ==>
          Disjoint(old(live)[k], Block(p.at, size))
      ensures chunks == if old(Fits(size, align)) then old(chunks) else old(chunks) + [old(NewChunk(size, align))]
      ensures p.Given? ==>
          var from := if cur == old(cur) then old(mem) else chunks[cur].mem;
          from <= p.at < from + align && mem == p.at + size
      ensures cur > old(cur) ==> !old(Bumps(mem, size, align, chunks[cur].end))
      ensures old(cur) <= cur && forall i :: old(cur) < i < cur ==> !Bumps(chunks[i].mem, size, align, chunks[i].end)
    {
      if Bumps(mem, size, align, chunks[cur].end) {
        p := Take(mem, size, align);
        return;
      }
      while cur + 1 < |chunks|
        invariant Valid() && chunks == old(chunks) && live == old(live) && old(cur) <= cur
        invariant forall i :: old(cur) < i <= cur ==> !Bumps(chunks[i].mem, size, align, chunks[i].end)
        decreases |chunks| - cur
      {
        NextChunk();
        if Bumps(chunks[cur].mem, size, align, chunks[cur].end) {
          p := Take(mem, size, align);
          return;
        }
      }
      AddChunk(size, align);
      if Bumps(chunks[cur].mem, size, align, chunks[cur].end) {
        p := Take(mem, size, align);
      } else {
        p := Nothing;
      }
    }

    /** Takes a block at the pointer. */
    method Take(from: nat, size: nat, align: nat) returns (p: Given)
      requires Valid() && align > 0 && from == mem && Bumps(mem, size, align, chunks[cur].end)
      modifies this`mem, this`live
      ensures Valid() && p == Given(AlignUp(from, align)) && live == old(live) + [Block(p.at, size)]
      ensures from <= p.at < from + align && mem == p.at + size
      ensures Inside(Block(p.at, size), chunks[cur])
      ensures forall k :: 0 <= k < |old(live)| ==> Disjoint(old(live)[k], Block(p.at, size))
    {
      hide AlignUp, Fresh;
      var b := Block(AlignUp(from, align), size);
      ApartFromLive(b);
      mem := b.at + size;
      live := live + [b];
      p := Given(b.at);
      forall k | 0 <= k < |live|
        ensures Placed(live[k])
      {
        if k < |old(live)| {
          assert old(Placed(live[k]));
          var i :| 0 <= i <= cur && i < |chunks| && Inside(live[k], chunks[i])
              && (i == cur ==> live[k].at + live[k].size <= old(mem));
          assert Inside(live[k], chunks[i]);
        } else {
          assert Inside(live[k], chunks[cur]);
        }
      }
    }

    /** Whatever starts at the pointer is apart from what has been handed out. */
    lemma ApartFromLive(b: Block)
      requires Valid() && mem <= b.at && b.at + b.size < chunks[cur].end
      ensures forall k :: 0 <= k < |live| ==> Disjoint(live[k], b)
    {
      hide Fresh;
      forall k | 0 <= k < |live|
        ensures Disjoint(live[k], b)
      {
        assert Placed(live[k]);
        var i :| 0 <= i <= cur && i < |chunks| && Inside(live[k], chunks[i])
            && (i == cur ==> live[k].at + live[k].size <= mem);
        if i < cur {
          assert Apart(chunks[i], chunks[cur]);
        }
      }
    }

    /** The next chunk of the list, from its start. */
    method NextChunk()
      requires Valid() && cur + 1 < |chunks|
      modifies this`cur, this`mem
      ensures Valid() && cur == old(cur) + 1 && mem == chunks[cur].mem
    {
      hide Fresh;
      cur := cur + 1;
      mem := chunks[cur].mem;
      forall k | 0 <= k < |live|
        ensures Placed(live[k])
      {
        assert old(Placed(live[k]));
        var i :| 0 <= i <= old(cur) && i < |chunks| && Inside(live[k], chunks[i]);
        assert i <= cur && Inside(live[k], chunks[i]);
      }
    }

    /** A new chunk at the end of the list. */
    method AddChunk(size: nat, align: nat)
      requires Valid() && cur + 1 == |chunks| && align > 0
      modifies this`chunks, this`cur, this`mem
      ensures Valid() && chunks == old(chunks) + [old(NewChunk(size, align))] && cur == old(cur) + 1
      ensures mem == chunks[cur].mem
    {
      var n := 2 * (chunks[cur].end - chunks[cur].mem);
      ghost var first := n;
      while n < size + align - 1
        invariant n > 0 && Doubled(first, size + align - 1) == Doubled(n, size + align - 1)
        decreases size + align - 1 - n
      {
        n := 2 * n;
      }
      var at := malloc(chunks, n);
      assert forall i :: 0 <= i < |chunks| ==> Apart(chunks[i], Chunk(at, at + n));
      hide Fresh, Doubled;
      chunks := chunks + [Chunk(at, at + n)];
      cur := cur + 1;
      mem := at;
      forall k | 0 <= k < |live|
        ensures Placed(live[k])
      {
        assert old(Placed(live[k]));
        var i :| 0 <= i <= old(cur) && i < |chunks| && Inside(live[k], old(chunks)[i]);
        assert i <= cur && Inside(live[k], chunks[i]);
      }
    }

    /** `arena_reset`: everything handed out so far is given up, and all chunks are used again. */
    method Reset()
      requires Valid()
      modifies this`cur, this`mem, this`live
      ensures Valid() && live == [] && cur == 0 && mem == chunks[0].mem
    {
      cur := 0;
      mem := chunks[0].mem;
      live := [];
    }
  }

  /** A new chunk of `n` bytes at `at` has no room for the block it was made for exactly if nothing is to spare and the
      pointer has to move as far as it can: `bump` wants one byte more than the doubling provides. */
  lemma NewFits(at: nat, n: nat, size: nat, align: nat)
    requires align > 0 && n >= size + align - 1
    ensures !Bumps(at, size, align, at + n) <==> n == size + align - 1 && AlignUp(at, align) == at + align - 1
  {
  }

  /** So a fresh arena cannot hand out twice its size, unaligned, though it adds a chunk of that size. */
  method ExactFit(malloc: (seq<Chunk>, nat) -> nat, size: nat) returns (p: Given, a: Arena)
    requires Fresh(malloc) && size > 0
    ensures p == Nothing && |a.chunks| == 2 && a.chunks[1].end == a.chunks[1].mem + 2 * size
  {
    hide Fresh;
    a := new Arena(malloc, size);
    assert !a.Fits(2 * size, 1);
    assert Doubled(2 * size, 2 * size) == 2 * size;
    p := a.Alloc(2 * size, 1);
  }
}
