/** The memoizing wrapper: a cache indexed by a level that lives in savepointed memory. */
module Memos {
  import opened Sims

  type Value = int

  /** What a cache entry remembers: the arguments and the result. */
  datatype Entry = Entry(arg: Value, ret: Value)

  datatype Option<T> = None | Some(value: T)

  function Lookup(cache: map<nat, Entry>, level: nat): Option<Entry> {
    if level in cache then Some(cache[level]) else None
  }

  /** The level of a miss: past the present one, and at least the frame number. */
  function NextLevel(level: nat, fp: nat): (r: nat)
    ensures level < r && fp <= r && (r == level + 1 || r == fp)
  {
    if level + 1 >= fp then level + 1 else fp
  }

  /** The level is stored in 8 bits. */
  function Stored(level: nat): Byte {
    level % 256
  }

  /** A one-entry memo: the result it gives, and the entry it holds afterwards. */
  function Answer(memo: Option<Entry>, arg: Value, now: Value): Entry {
    if memo.Some? && memo.value.arg == arg then memo.value else Entry(arg, now)
  }

  class Memo {
    const sim: Sim
    const off: nat
    var cache: map<nat, Entry>
    // the memo that the cache should stand for, and what each frame activation saved of it
    ghost var memo: Option<Entry>
    ghost var memos: map<nat, Option<Entry>>

    /** The level byte has been allocated at `off` in the stack region, and is zero. */
    constructor (sim: Sim, off: nat)
      requires sim.Valid() && Addr(sim.nframe + 1, off) in sim.owned && off < sim.vstack && sim.Contents()[off] == 0
      requires forall i :: 0 <= i <= sim.fp && sim.frames[i].save ==> sim.frames[i].spPtr <= off
      ensures Base() && Faithful() && Ordered() && memo == None && cache == map[] && Level() == 0
      ensures this.sim == sim && this.off == off
    {
      this.sim, this.off := sim, off;
      cache, memo, memos := map[], None, map[];
    }

    function Level(): nat
      requires sim.Shape() && off < sim.vstack
      reads sim, sim.mem
    {
      sim.mem[sim.nframe + 1, off]
    }

    /** Frame `i` is live and its savepoint holds a level. */
    ghost predicate SavedLevel(i: nat)
      reads sim, sim.frames
    {
      i <= sim.fp && i < sim.frames.Length && sim.frames[i].save && off < sim.frames[i].spPtr
    }

    /** The level that frame `i` saved, and the memo of that time. */
    ghost predicate Noted(i: nat)
      reads this, sim, sim.frames
    {
      SavedLevel(i) ==>
          sim.frames[i].fid in sim.saved && off < |sim.saved[sim.frames[i].fid]| && sim.frames[i].fid in memos
    }

    ghost predicate Base()
      reads this, sim, sim.frames, sim.mem
    {
      sim.Valid() && Addr(sim.nframe + 1, off) in sim.owned && off < sim.vstack && forall i: nat :: Noted(i)
    }

    ghost function LevelOf(i: nat): nat
      requires SavedLevel(i) && Noted(i)
      reads this, sim, sim.frames
    {
      sim.saved[sim.frames[i].fid][off]
    }

    ghost function MemoOf(i: nat): Option<Entry>
      requires SavedLevel(i) && Noted(i)
      reads this, sim, sim.frames
    {
      memos[sim.frames[i].fid]
    }

    /** Where frame `i` saved its level, the cache still holds what the memo was then. */
    ghost predicate Keeps(i: nat)
      requires Noted(i)
      reads this, sim, sim.frames
    {
      SavedLevel(i) ==> MemoOf(i) == Lookup(cache, LevelOf(i))
    }

    /** The cache is a memo that is saved and restored with the stack. */
    ghost predicate Faithful()
      requires Base()
      reads this, sim, sim.frames, sim.mem
    {
      memo == Lookup(cache, Level()) && forall i: nat :: Keeps(i)
    }

    /** Saved levels grow with the frames, up to the present one. */
    ghost predicate Ordered()
      requires Base()
      reads this, sim, sim.frames, sim.mem
    {
      && (forall i: nat :: SavedLevel(i) ==> LevelOf(i) <= Level())
      && (forall i: nat, j: nat :: i < j && SavedLevel(i) && SavedLevel(j) ==> LevelOf(i) <= LevelOf(j))
    }

    /** Writing `e` to the slot of `level` loses no saved memo. */
    ghost predicate Harmless(level: nat, e: Entry)
      requires Base()
      reads this, sim, sim.frames, sim.mem
    {
      forall i: nat :: SavedLevel(i) ==> LevelOf(i) != level || Lookup(cache, level) == Some(e)
    }

    /** The same frames have saved the same levels and memos. */
    twostate predicate SameSaves()
      reads this, sim, sim.frames
    {
      && memos == old(memos)
      && (forall i: nat :: SavedLevel(i) <==> old(SavedLevel(i)))
      && (forall i: nat :: old(Noted(i)) ==>
          Noted(i) && (SavedLevel(i) ==> LevelOf(i) == old(LevelOf(i)) && MemoOf(i) == old(MemoOf(i))))
    }

    /** The frames that are still live have saved the same levels and memos. */
    twostate predicate FewerSaves()
      reads this, sim, sim.frames
    {
      && memos == old(memos)
      && (forall i: nat :: SavedLevel(i) <==> i <= sim.fp && old(SavedLevel(i)))
      && (forall i: nat :: old(Noted(i)) ==>
          Noted(i) && (SavedLevel(i) ==> LevelOf(i) == old(LevelOf(i)) && MemoOf(i) == old(MemoOf(i))))
    }

    predicate Hit(arg: Value)
      requires sim.Shape() && off < sim.vstack
      reads this, sim, sim.mem
    {
      Lookup(cache, Level()).Some? && cache[Level()].arg == arg
    }

    /** A call of the memoized function, whose body would return `now` now. The result is that of the entry at the
        present level. From a cache that stands for the memo, it is the memo's, and the cache goes on standing for it
        exactly if the level of a miss is not one that a live frame has saved, or holds the same entry already. */
    method Call(arg: Value, now: Value) returns (ret: Value)
      requires Base()
      modifies this`cache, this`memo, sim.mem
      ensures Base()
      ensures ret == Answer(Lookup(old(cache), old(Level())), arg, now).ret && memo == Some(Answer(old(memo), arg, now))
      ensures old(Hit(arg)) ==> cache == old(cache) && Level() == old(Level())
      ensures !old(Hit(arg)) ==>
          Level() == Stored(NextLevel(old(Level()), sim.fp)) && cache == old(cache)[Level() := Entry(arg, now)]
      ensures SameSaves()
      ensures old(Faithful()) ==> ret == Answer(old(memo), arg, now).ret
      ensures old(Faithful()) ==>
        (Faithful() <==> old(Hit(arg)) || old(Harmless(Stored(NextLevel(Level(), sim.fp)), Entry(arg, now))))
      ensures old(Ordered()) && (old(Hit(arg)) || NextLevel(old(Level()), sim.fp) < 256) ==> Ordered()
    {
      hide Sim.FramesOk, Sim.StackOrder, Sim.OwnedOk;
      var level := Level();
      memo := Some(Answer(memo, arg, now));
      if level in cache && cache[level].arg == arg {
        assert forall i: nat :: old(Noted(i)) ==> Noted(i);
        return cache[level].ret;
      }
      var next := NextLevel(level, sim.fp);
      sim.Write(Addr(sim.nframe + 1, off), Stored(next));
      cache := cache[Stored(next) := Entry(arg, now)];
      ret := now;
      assert SameSaves();
      forall i: nat | old(Noted(i)) && old(Keeps(i))
        ensures Noted(i)
        ensures (Keeps(i) <==> (SavedLevel(i) ==>
            LevelOf(i) != Stored(next) || Lookup(old(cache), Stored(next)) == Some(Entry(arg, now))))
      {
      }
    }

    /** As long as the level fits into its 8 bits, no saved memo is lost. */
    lemma FitsHarmless(e: Entry)
      requires Base() && Ordered() && NextLevel(Level(), sim.fp) < 256
      ensures Harmless(Stored(NextLevel(Level(), sim.fp)), e)
    {
    }

    /** A savepoint saves the memo, too. */
    method Savepoint() returns (st: Status)
      requires Base()
      modifies this`memos, sim`saved, sim.mem, sim.frames
      ensures Base() && Level() == old(Level())
      ensures st == if old(sim.frames[sim.fp].save) then ESave
          else if sim.Fits(old(sim.frames[sim.fp].ptr), sim.vstack, BLOCK) then Ok else EAlloc
      ensures st == Ok ==>
          memos == old(memos)[sim.frames[sim.fp].fid := memo] && SavedLevel(sim.fp) && LevelOf(sim.fp) == Level()
      ensures st != Ok ==> memos == old(memos) && sim.frames[sim.fp].save == old(sim.frames[sim.fp].save)
      ensures sim.frames[sim.fp].fid == old(sim.frames[sim.fp].fid)
      ensures forall i: nat :: i < sim.frames.Length && i != sim.fp ==> sim.frames[i] == old(sim.frames[i])
      ensures st == ESave ==> sim.frames[sim.fp] == old(sim.frames[sim.fp])
      ensures old(Faithful()) ==> Faithful()
      ensures old(Ordered()) ==> Ordered()
    {
      hide Sim.FramesOk, Sim.StackOrder, Sim.OwnedOk;
      st := sim.Savepoint();
      if st == Ok {
        memos := memos[sim.frames[sim.fp].fid := memo];
      }
      assert sim.Contents()[off] == Level() && old(sim.Contents()[off] == Level());
      forall i: nat
        ensures Noted(i) && (SavedLevel(i) ==> LevelOf(i) == if old(SavedLevel(i)) then old(LevelOf(i)) else Level())
        ensures SavedLevel(i) ==>
            MemoOf(i) == (if old(SavedLevel(i)) then old(MemoOf(i)) else memo)
            || (LevelOf(i) == Level() && MemoOf(i) == memo)
        ensures SavedLevel(i) && !old(SavedLevel(i)) ==> i == sim.fp
        ensures old(Faithful()) ==> Keeps(i)
      {
        assert old(Noted(i)) && (old(Faithful()) ==> old(Keeps(i)));
      }
    }

    /** Going back to an earlier frame, without loading it, leaves the memo alone. */
    method Up(n: nat) returns (st: Status)
      requires Base()
      modifies sim`fp
      ensures Base() && Level() == old(Level())
      ensures st == (if n > old(sim.fp) then EFrame else Ok) && sim.fp == (if n > old(sim.fp) then old(sim.fp) else n)
      ensures FewerSaves()
      ensures old(Faithful()) ==> Faithful()
      ensures old(Ordered()) ==> Ordered()
    {
      hide Sim.FramesOk, Sim.StackOrder, Sim.OwnedOk;
      st := sim.Up(n);
      forall i: nat
        ensures Noted(i) && (old(Faithful()) ==> Keeps(i))
      {
        assert old(Noted(i)) && (old(Faithful()) ==> old(Keeps(i)));
      }
    }

    /** Reloading a frame that saved the level brings back the level, and the memo of that time. */
    method Reload() returns (st: Status)
      requires Base() && (sim.frames[sim.fp].save ==> SavedLevel(sim.fp))
      modifies this`memo, sim`vstack, sim`owned, sim.mem
      ensures Base() && st == (if sim.frames[sim.fp].save then Ok else ESave)
      ensures st == Ok ==> Level() == old(LevelOf(sim.fp)) && memo == old(MemoOf(sim.fp))
      ensures st != Ok ==> Level() == old(Level()) && memo == old(memo)
      ensures SameSaves()
      ensures sim.owned == sim.InStack(old(sim.owned))
      ensures old(Faithful()) ==> Faithful()
      ensures old(Ordered()) ==> Ordered()
    {
      hide Sim.FramesOk, Sim.StackOrder, Sim.OwnedOk;
      assert Noted(sim.fp);
      if sim.frames[sim.fp].save {
        memo := MemoOf(sim.fp);
      }
      assert sim.Contents()[off] == Level();
      st := sim.Reload();
      assert sim.Contents()[off] == Level();
      assert old(Faithful()) ==> old(Keeps(sim.fp));
      forall i: nat
        ensures Noted(i) && (old(Faithful()) ==> Keeps(i))
      {
        assert old(Noted(i)) && (old(Faithful()) ==> old(Keeps(i)) && old(Keeps(sim.fp)));
      }
    }

    /** Loading does both. */
    method Load(n: nat) returns (st: Status)
      requires Base() && (n <= sim.fp && sim.frames[n].save ==> SavedLevel(n))
      modifies this`memo, sim`fp, sim`vstack, sim`owned, sim.mem
      ensures Base() && st == (if n > old(sim.fp) then EFrame else if sim.frames[n].save then Ok else ESave)
      ensures sim.fp == (if n > old(sim.fp) then old(sim.fp) else n)
      ensures st == Ok ==> Level() == old(LevelOf(n)) && memo == old(MemoOf(n))
      ensures st != Ok ==> Level() == old(Level()) && memo == old(memo)
      ensures FewerSaves()
      ensures sim.owned == sim.InStack(old(sim.owned))
      ensures old(Faithful()) ==> Faithful()
      ensures old(Ordered()) ==> Ordered()
    {
      hide Sim.FramesOk, Sim.StackOrder, Sim.OwnedOk;
      assert Noted(n);
      if n <= sim.fp && sim.frames[n].save {
        memo := MemoOf(n);
      }
      assert sim.Contents()[off] == Level();
      st := sim.Load(n);
      assert sim.Contents()[off] == Level();
      assert old(Faithful()) ==> old(Keeps(n));
      forall i: nat
        ensures Noted(i) && (old(Faithful()) ==> Keeps(i) && old(Keeps(n)))
      {
        assert old(Noted(i)) && (old(Faithful()) ==> old(Keeps(i)) && old(Keeps(n)));
      }
    }

    /** Entering a frame leaves the memo alone. */
    method Enter() returns (st: Status)
      requires Base()
      modifies sim`fp, sim`nextFid, sim`owned, sim.frames
      ensures Base() && Level() == old(Level())
      ensures st == (if old(sim.fp) + 1 >= sim.nframe then EFrame else Ok)
      ensures sim.fp == old(sim.fp) + (if st == Ok then 1 else 0)
      ensures st == Ok ==> !sim.frames[sim.fp].save
      ensures forall i: nat :: i <= old(sim.fp) ==> i < sim.frames.Length && sim.frames[i] == old(sim.frames[i])
      ensures SameSaves()
      ensures sim.owned == set a | a in old(sim.owned) && (st == Ok ==> a.r != sim.fp + 1)
      ensures old(Faithful()) ==> Faithful()
      ensures old(Ordered()) ==> Ordered()
    {
      hide Sim.FramesOk, Sim.StackOrder, Sim.OwnedOk;
      st := sim.Enter();
      assert sim.Contents()[off] == Level() && old(sim.Contents()[off] == Level());
      forall i: nat
        ensures Noted(i) && (SavedLevel(i) <==> old(SavedLevel(i))) && (old(Faithful()) ==> Keeps(i))
      {
        assert old(Noted(i)) && (old(Faithful()) ==> old(Keeps(i)));
      }
    }

    /** A branch point saves the memo like a savepoint. */
    method Branch() returns (st: Status)
      requires Base()
      modifies this`memos, sim`saved, sim.mem, sim.frames
      ensures Base() && Level() == old(Level())
      ensures st == if old(sim.frames[sim.fp].branch) then EBranch else if old(sim.frames[sim.fp].save) then ESave
          else if sim.Fits(old(sim.frames[sim.fp].ptr), sim.vstack, BLOCK) then Ok else EAlloc
      ensures st == Ok ==>
          memos == old(memos)[sim.frames[sim.fp].fid := memo] && SavedLevel(sim.fp) && LevelOf(sim.fp) == Level()
      ensures st != Ok ==> memos == old(memos) && sim.frames[sim.fp].save == old(sim.frames[sim.fp].save)
      ensures sim.frames[sim.fp].fid == old(sim.frames[sim.fp].fid)
      ensures forall i: nat :: i < sim.frames.Length && i != sim.fp ==> sim.frames[i] == old(sim.frames[i])
      ensures st == ESave || st == EBranch ==> sim.frames[sim.fp].spPtr == old(sim.frames[sim.fp].spPtr)
      ensures old(Faithful()) ==> Faithful()
      ensures old(Ordered()) ==> Ordered()
    {
      hide Sim.FramesOk, Sim.StackOrder, Sim.OwnedOk;
      st := sim.Branch();
      if st == Ok {
        memos := memos[sim.frames[sim.fp].fid := memo];
      }
      assert sim.Contents()[off] == Level() && old(sim.Contents()[off] == Level());
      forall i: nat
        ensures Noted(i) && (SavedLevel(i) ==> LevelOf(i) == if old(SavedLevel(i)) then old(LevelOf(i)) else Level())
        ensures SavedLevel(i) ==>
            MemoOf(i) == (if old(SavedLevel(i)) then old(MemoOf(i)) else memo)
            || (LevelOf(i) == Level() && MemoOf(i) == memo)
        ensures SavedLevel(i) && !old(SavedLevel(i)) ==> i == sim.fp
        ensures old(Faithful()) ==> Keeps(i)
      {
        assert old(Noted(i)) && (old(Faithful()) ==> old(Keeps(i)));
      }
    }

    /** The next alternative of a branch point starts from the memo of that point. */
    method EnterBranch(n: nat) returns (st: Status)
      requires Base() && (n <= sim.fp && sim.frames[n].save ==> SavedLevel(n))
      modifies this`memo, sim`fp, sim`nextFid, sim`vstack, sim`owned, sim.mem, sim.frames
      ensures Base()
      ensures st == Ok <==>
          n <= old(sim.fp) && (n == old(sim.fp) || old(sim.frames[n].save)) && old(sim.frames[n].branch)
          && n + 1 < sim.nframe
      ensures st == if n > old(sim.fp) then EFrame else if n < old(sim.fp) && !old(sim.frames[n].save) then ESave
          else if !old(sim.frames[n].branch) then EBranch else if n + 1 < sim.nframe then Ok else EFrame
      ensures sim.fp == if st == Ok then n + 1 else if n > old(sim.fp) then old(sim.fp) else n
      ensures st == Ok ==> !sim.frames[sim.fp].save
      ensures if n < old(sim.fp) && old(sim.frames[n].save)
              then Level() == old(LevelOf(n)) && memo == old(MemoOf(n))
              else Level() == old(Level()) && memo == old(memo)
      ensures memos == old(memos)
      ensures forall i: nat :: i <= n && i <= old(sim.fp) ==>
          i < sim.frames.Length && sim.frames[i] == old(sim.frames[i])
      ensures sim.owned == set a | a in sim.InStack(old(sim.owned)) && (st == Ok ==> a.r != sim.fp + 1)
      ensures old(Faithful()) ==> Faithful()
      ensures old(Ordered()) ==> Ordered()
    {
      hide Sim.FramesOk, Sim.StackOrder, Sim.OwnedOk;
      assert Noted(n);
      if n < sim.fp && sim.frames[n].save {
        memo := MemoOf(n);
      }
      assert sim.Contents()[off] == Level();
      st := sim.EnterBranch(n);
      assert sim.Contents()[off] == Level();
      assert old(Faithful()) ==> old(Keeps(n));
      forall i: nat
        ensures Noted(i) && (old(Faithful()) ==> Keeps(i) && old(Keeps(n)))
        ensures SavedLevel(i) ==> i <= n && old(SavedLevel(i)) && LevelOf(i) == old(LevelOf(i))
      {
        assert old(Noted(i)) && (old(Faithful()) ==> old(Keeps(i)) && old(Keeps(n)));
      }
    }

    /** Allocations, and writes to other bytes, leave the memo alone. */
    method Alloc(size: nat, align: nat, life: Lifetime) returns (p: Ptr)
      requires Base() && align > 0
      modifies sim`stat, sim`vstack, sim`owned, sim.frames
      ensures Base() && Level() == old(Level()) && SameSaves()
      ensures p.Null? ==> sim.owned == old(sim.owned)
      ensures p.At? ==> sim.Granted(p.a.r, p.a.o, size)
      ensures forall i: nat :: i < sim.frames.Length ==>
          sim.frames[i].save == old(sim.frames[i].save) && sim.frames[i].fid == old(sim.frames[i].fid)
      ensures old(Faithful()) ==> Faithful()
      ensures old(Ordered()) ==> Ordered()
    {
      hide Sim.FramesOk, Sim.StackOrder, Sim.OwnedOk;
      p := sim.Alloc(size, align, life);
      forall i: nat
        ensures Noted(i) && (SavedLevel(i) <==> old(SavedLevel(i))) && (old(Faithful()) ==> Keeps(i))
      {
        assert old(Noted(i)) && (old(Faithful()) ==> old(Keeps(i)));
      }
    }

    method Write(a: Addr, b: Byte)
      requires Base() && a in sim.owned && a != Addr(sim.nframe + 1, off)
      modifies sim.mem
      ensures Base() && Level() == old(Level()) && SameSaves()
      ensures old(Faithful()) ==> Faithful()
      ensures old(Ordered()) ==> Ordered()
    {
      hide Sim.FramesOk, Sim.StackOrder, Sim.OwnedOk;
      sim.Write(a, b);
      forall i: nat
        ensures Noted(i) && (old(Faithful()) ==> Keeps(i))
      {
        assert old(Noted(i)) && (old(Faithful()) ==> old(Keeps(i)));
      }
    }
  }

  // ---------- when the level does not fit ----------

  /** Frame 0 has saved level 0 and the empty memo. */
  ghost predicate SavedEmpty(m: Memo)
    reads m, m.sim, m.sim.frames
  {
    m.SavedLevel(0) && m.Noted(0) && m.LevelOf(0) == 0 && m.MemoOf(0) == None
  }

  /** All entries are above level 0 and up to level `n`, with arguments below `n`. */
  predicate UpToLevel(cache: map<nat, Entry>, n: nat) {
    forall l :: l in cache ==> 0 < l <= n && cache[l].arg < n
  }

  /** `n` misses in a row, after frame 0 has saved the empty memo. */
  method MissRow(m: Memo, n: nat)
    requires m.Base() && SavedEmpty(m) && m.sim.fp == 0 && m.cache == map[] && m.Level() == 0 && n <= 255
    modifies m`cache, m`memo, m.sim.mem
    ensures m.Base() && SavedEmpty(m) && m.Level() == n && UpToLevel(m.cache, n)
  {
    hide Sim.FramesOk, Sim.StackOrder, Sim.OwnedOk;
    for i := 0 to n
      invariant m.Base() && SavedEmpty(m) && m.Level() == i && UpToLevel(m.cache, i)
    {
      var r := m.Call(i, 0);
    }
  }

  /** The refinement ends when the 8 bits do: a savepoint of the empty memo, 256 misses, back to the savepoint, and
      the memo that should be empty finds the result of an abandoned path, instead of computing a new one. */
  method WrapLosesPath() returns (ret: Value)
    ensures ret == 1
  {
    hide Sim.FramesOk, Sim.StackOrder, Sim.OwnedOk;
    var m := SavedMemo();
    MissRow(m, 255);
    ret := m.Call(255, 1);
    assert m.Level() == 0 && m.cache[0] == Entry(255, 1);
    var st := m.Load(0);
    assert m.memo == None;
    ret := m.Call(255, 2);
  }

  /** A fresh memo that frame 0 has saved. */
  method SavedMemo() returns (m: Memo)
    ensures fresh(m) && fresh(m.sim) && fresh(m.sim.mem) && fresh(m.sim.frames)
    ensures m.Base() && SavedEmpty(m) && m.sim.fp == 0 && m.cache == map[] && m.Level() == 0
  {
    hide Sim.FramesOk, Sim.StackOrder, Sim.OwnedOk;
    var sim := new Sim(1, 256, 8);
    assert sim.vstack == 0 by {
      assert |sim.Contents()| == 0;
    }
    var p := sim.Alloc(1, 1, Vstack);
    sim.Write(p.a, 0);
    m := new Memo(sim, p.a.o);
    assert sim.frames[0].ptr == 0;
    var st := m.Savepoint();
  }
}
