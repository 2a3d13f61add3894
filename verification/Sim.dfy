/** The simulator's frame stack: frames hold snapshots of a shared stack region, and branches roll back to them. */
module Sims {

  /** `SIM_SAVEPOINT_BLOCKSIZE`. */
  const BLOCK: nat := 64

  type Byte = b: int | 0 <= b < 256

  /** An address: a region, and an offset inside it. Region 0 is static, region `i + 1` belongs to frame `i`, and the
      last region is the stack. */
  datatype Addr = Addr(r: nat, o: nat)

  datatype Lifetime = Static | FrameLife | Vstack

  datatype Status = Ok | EFrame | ESave | EAlloc | EBranch

  datatype Ptr = Null | At(a: Addr)

  /** `struct frame`; `ptr` is the bump pointer of the frame's region. */
  datatype Frame = Frame(save: bool, branch: bool, fid: nat, ptr: nat, spData: nat, spPtr: nat)

  /** `ALIGN`, for a power of two `a`: the least multiple of `a` from `p` on. */
  function AlignUp(p: nat, a: nat): (q: nat)
    requires a > 0
    ensures p <= q < p + a && q % a == 0
  {
    var r := p % a;
    DivMod(p, a);
    if r == 0 then p else p + (a - r)
  }

  lemma DivMod(p: nat, a: nat)
    requires a > 0
    ensures p % a != 0 ==> (p + (a - p % a)) % a == 0
  {
    var q, r := p / a, p % a;
    if r != 0 {
      assert p + (a - r) == (q + 1) * a;
      MulMod(q + 1, a);
    }
  }

  lemma MulMod(q: nat, a: nat)
    requires a > 0
    ensures (q * a) % a == 0
  {
    var d, m := (q * a) / a, (q * a) % a;
    assert q * a == a * d + m;
    OnlyZero(q, d, a, m);
  }

  lemma OnlyZero(q: int, d: int, a: int, m: int)
    requires q * a == a * d + m && 0 <= m < a
    ensures m == 0
  {
    assert (q - d) * a == m;
    if q > d {
      AtLeastOnce(q - d, a);
    } else if q < d {
      AtLeastOnce(d - q, a);
    }
  }

  lemma AtLeastOnce(n: int, a: int)
    requires n >= 1 && a > 0
    ensures n * a >= a
  {
    assert (n - 1) * a >= 0;
  }

  /** Bytes that a block-wise copy of `n` bytes covers. */
  function Rounded(n: nat): (q: nat)
    ensures n <= q < n + BLOCK && q % BLOCK == 0
  {
    AlignUp(n, BLOCK)
  }

  class Sim {
    const nframe: nat
    const rsize: nat
    const mem: array2<Byte>
    const frames: array<Frame>
    var stat: nat
    var vstack: nat
    var nextFid: nat
    var fp: nat
    // what each frame activation saved, and the addresses that user code may write to
    ghost var saved: map<nat, seq<Byte>>
    ghost var owned: set<Addr>

    /** `sim_create`: `header` bytes of the static region hold the simulator itself. */
    constructor (nframe: nat, rsize: nat, header: nat)
      requires nframe > 0 && rsize % BLOCK == 0 && header < rsize
      ensures Valid() && fp == 0 && Contents() == [] && saved == map[] && fresh(mem) && fresh(frames)
      ensures this.nframe == nframe && this.rsize == rsize && !frames[0].save && !frames[0].branch && frames[0].ptr == 0
    {
      this.nframe, this.rsize := nframe, rsize;
      mem := new Byte[nframe + 2, rsize]((i, j) => 0);
      frames := new Frame[nframe](i => Frame(false, false, 0, 0, 0, 0));
      stat, vstack, nextFid, fp := header, 0, 1, 0;
      saved, owned := map[], {};
      new;
      EnterFrame();
    }

    ghost function Bytes(r: nat, o: nat, n: nat): (s: seq<Byte>)
      requires r < mem.Length0 && o + n <= mem.Length1
      reads mem
      ensures |s| == n && forall i :: 0 <= i < n ==> s[i] == mem[r, o + i]
    {
      seq(n, i requires 0 <= i < n reads mem => mem[r, o + i])
    }

    /** The live part of the stack region. */
    ghost function Contents(): seq<Byte>
      requires Shape()
      reads this`vstack, this`stat, this`fp, mem
    {
      Bytes(nframe + 1, 0, vstack)
    }

    ghost predicate Shape()
      reads this`vstack, this`stat, this`fp
    {
      && mem.Length0 == nframe + 2 && mem.Length1 == rsize && frames.Length == nframe
      && rsize % BLOCK == 0 && vstack <= rsize && stat <= rsize && fp < nframe
    }

    /** The snapshot of a frame is where its savepoint put it. */
    ghost predicate SnapOk(i: nat)
      requires Shape() && i < nframe
      reads this`vstack, this`stat, this`fp, this`saved, mem, frames
    {
      var f := frames[i];
      f.save ==>
        && f.spData + f.spPtr <= f.ptr && f.spData + Rounded(f.spPtr) <= rsize
        && f.fid in saved && saved[f.fid] == Bytes(i + 1, f.spData, f.spPtr)
    }

    /** The first `n` frames are live, in order of activation. */
    ghost predicate FramesOk(n: nat)
      requires Shape() && n <= nframe
      reads this`vstack, this`stat, this`fp, this`saved, this`nextFid, mem, frames
    {
      && (forall i :: 0 <= i < nframe ==> frames[i].ptr <= rsize)
      && (forall i :: 0 <= i < n ==> SnapOk(i) && frames[i].fid < nextFid)
      && (forall i :: 0 <= i < n && !frames[i].save ==> frames[i].fid !in saved)
      && (forall i, j :: 0 <= i < j < n ==> frames[i].fid < frames[j].fid)
      && (forall d :: d in saved ==> d < nextFid)
    }

    /** Saved stacks grow with the frames. */
    ghost predicate StackOrder(n: nat)
      requires Shape() && n <= nframe
      reads this`vstack, this`stat, this`fp, frames
    {
      && (forall i :: 0 <= i < n && frames[i].save ==> frames[i].spPtr <= vstack)
      && (forall i, j :: 0 <= i < j < n && frames[i].save && frames[j].save ==> frames[i].spPtr <= frames[j].spPtr)
    }

    predicate InSnap(f: Frame, o: nat) {
      f.save && f.spData <= o < f.spData + f.spPtr
    }

    /** User code only owns allocated bytes, and none that a live snapshot uses. */
    ghost predicate OwnedOk(n: nat)
      requires Shape() && n <= nframe
      reads this, frames
    {
      forall a :: a in owned ==>
        && a.r < nframe + 2
        && (a.r == 0 ==> a.o < stat)
        && (a.r == nframe + 1 ==> a.o < vstack)
        && (0 < a.r <= nframe ==> a.o < frames[a.r - 1].ptr)
        && (0 < a.r <= n ==> !InSnap(frames[a.r - 1], a.o))
    }

    ghost predicate Valid()
      reads this, mem, frames
    {
      Shape() && FramesOk(fp + 1) && StackOrder(fp + 1) && OwnedOk(fp + 1)
    }

    /** Saved snapshots are never changed, only added to. */
    twostate predicate SavedKept()
      reads this
    {
      forall d :: d in old(saved) ==> d in saved && saved[d] == old(saved[d])
    }

    /** `f_enter`: a new activation of the frame on top. */
    method EnterFrame()
      requires Shape() && FramesOk(fp) && StackOrder(fp) && OwnedOk(fp)
      modifies this`nextFid, this`owned, frames
      ensures Valid() && nextFid == old(nextFid) + 1
      ensures frames[fp] == Frame(false, false, old(nextFid), 0, old(frames[fp]).spData, old(frames[fp]).spPtr)
      ensures forall i :: 0 <= i < nframe && i != fp ==> frames[i] == old(frames[i])
      ensures owned == set a | a in old(owned) && a.r != fp + 1
    {
      hide Rounded, AlignUp, FramesOk, StackOrder, Bytes;
      ResetFrame();
      owned := set a | a in owned && a.r != fp + 1;
    }

    method ResetFrame()
      requires Shape() && FramesOk(fp) && StackOrder(fp)
      modifies this`nextFid, frames
      ensures Shape() && FramesOk(fp + 1) && StackOrder(fp + 1) && nextFid == old(nextFid) + 1
      ensures frames[fp] == Frame(false, false, old(nextFid), 0, old(frames[fp]).spData, old(frames[fp]).spPtr)
      ensures forall i :: 0 <= i < nframe && i != fp ==> frames[i] == old(frames[i])
    {
      hide Rounded, AlignUp, Bytes;
      frames[fp] := frames[fp].(fid := nextFid, save := false, branch := false, ptr := 0);
      nextFid := nextFid + 1;
    }

    /** `blockcpy`: copies whole blocks between two regions. */
    method BlockCopy(dr: nat, d: nat, sr: nat, s: nat, size: nat)
      requires dr < mem.Length0 && sr < mem.Length0 && dr != sr
      requires d + Rounded(size) <= mem.Length1 && s + Rounded(size) <= mem.Length1
      modifies mem
      ensures forall o :: d <= o < d + size ==> mem[dr, o] == old(mem[sr, s + (o - d)])
      ensures forall r, o ::
          0 <= r < mem.Length0 && 0 <= o < mem.Length1 && !(r == dr && d <= o < d + Rounded(size)) ==>
          mem[r, o] == old(mem[r, o])
    {
      var i := 0;
      while i < size
        invariant 0 <= i <= Rounded(size) && i % BLOCK == 0
        invariant forall o :: d <= o < d + i ==> mem[dr, o] == old(mem[sr, s + (o - d)])
        invariant forall r, o :: 0 <= r < mem.Length0 && 0 <= o < mem.Length1 && !(r == dr && d <= o < d + i) ==>
            mem[r, o] == old(mem[r, o])
        decreases Rounded(size) - i
      {
        CopyBlock(dr, d + i, sr, s + i);
        i := i + BLOCK;
      }
    }

    /** One aligned block. */
    method CopyBlock(dr: nat, d: nat, sr: nat, s: nat)
      requires dr < mem.Length0 && sr < mem.Length0 && dr != sr && d + BLOCK <= mem.Length1 && s + BLOCK <= mem.Length1
      modifies mem
      ensures forall o :: d <= o < d + BLOCK ==> mem[dr, o] == old(mem[sr, s + (o - d)])
      ensures forall r, o :: 0 <= r < mem.Length0 && 0 <= o < mem.Length1 && !(r == dr && d <= o < d + BLOCK) ==>
          mem[r, o] == old(mem[r, o])
    {
      for i := 0 to BLOCK
        invariant forall o :: d <= o < d + i ==> mem[dr, o] == old(mem[sr, s + (o - d)])
        invariant forall r, o :: 0 <= r < mem.Length0 && 0 <= o < mem.Length1 && !(r == dr && d <= o < d + i) ==>
            mem[r, o] == old(mem[r, o])
      {
        mem[dr, d + i] := mem[sr, s + i];
      }
    }

    /** `bump`: a block must end strictly inside its region. */
    predicate Fits(ptr: nat, size: nat, align: nat)
      requires align > 0
    {
      AlignUp(ptr, align) + size < rsize
    }

    /** The region and bump pointer that a lifetime allocates from. */
    function RegionOf(life: Lifetime): nat
      reads this
    {
      if life.Static? then 0 else if life.FrameLife? then fp + 1 else nframe + 1
    }

    function PtrOf(life: Lifetime): nat
      requires fp < frames.Length
      reads this, frames
    {
      if life.Static? then stat else if life.FrameLife? then frames[fp].ptr else vstack
    }

    /** The addresses of a block. */
    function Block(r: nat, o: nat, n: nat): (b: set<Addr>)
      ensures forall a :: a in b <==> a.r == r && o <= a.o < o + n
    {
      set i {:trigger Addr(r, i)} | o <= i < o + n :: Addr(r, i)
    }

    /** The block at `q` becomes the user's. */
    twostate predicate Granted(r: nat, q: nat, size: nat)
      reads this
    {
      owned == old(owned) + Block(r, q, size) && old(owned) !! Block(r, q, size) && q + size < rsize
    }

    method TakeStatic(q: nat, size: nat)
      requires Valid() && stat <= q && q + size < rsize
      modifies this`stat, this`owned
      ensures Valid() && Granted(0, q, size) && stat == q + size
    {
      hide Rounded, AlignUp, Bytes;
      stat := q + size;
      owned := owned + Block(0, q, size);
    }

    method TakeFrame(q: nat, size: nat)
      requires Valid() && frames[fp].ptr <= q && q + size < rsize
      modifies this`owned, frames
      ensures Valid() && Granted(fp + 1, q, size) && frames[fp] == old(frames[fp]).(ptr := q + size)
      ensures forall i :: 0 <= i < nframe && i != fp ==> frames[i] == old(frames[i])
    {
      hide Rounded, AlignUp, Bytes, FramesOk, StackOrder;
      assert forall a :: a in owned && a.r == fp + 1 ==> a.o < frames[fp].ptr;
      SnapBelowPtr();
      BumpFrame(q + size);
      owned := owned + Block(fp + 1, q, size);
    }

    lemma SnapBelowPtr()
      requires Valid()
      ensures frames[fp].save ==> frames[fp].spData + frames[fp].spPtr <= frames[fp].ptr
    {
      hide AlignUp, Rounded, OwnedOk;
      assert SnapOk(fp);
    }

    method BumpFrame(end: nat)
      requires Valid() && frames[fp].ptr <= end < rsize
      modifies frames
      ensures Valid() && frames[fp] == old(frames[fp]).(ptr := end)
      ensures forall i :: 0 <= i < nframe && i != fp ==> frames[i] == old(frames[i])
    {
      hide Rounded, AlignUp, Bytes;
      frames[fp] := frames[fp].(ptr := end);
    }

    method TakeStack(q: nat, size: nat)
      requires Valid() && vstack <= q && q + size < rsize
      modifies this`vstack, this`owned
      ensures Valid() && Granted(nframe + 1, q, size) && vstack == q + size
    {
      hide Rounded, AlignUp, Bytes;
      vstack := q + size;
      owned := owned + Block(nframe + 1, q, size);
    }

    /** `sim_alloc`: an aligned block inside its region, disjoint from everything allocated before. */
    method Alloc(size: nat, align: nat, life: Lifetime) returns (p: Ptr)
      requires Valid() && align > 0
      modifies this`stat, this`vstack, this`owned, frames
      ensures Valid()
      ensures p.At? <==> Fits(old(PtrOf(life)), size, align)
      ensures p.Null? ==> owned == old(owned) && vstack == old(vstack) && stat == old(stat)
      ensures p.At? ==>
          p.a.r == RegionOf(life) && p.a.o % align == 0 && old(PtrOf(life)) <= p.a.o && Granted(p.a.r, p.a.o, size)
      ensures p.At? ==> p.a.o < old(PtrOf(life)) + align && PtrOf(life) == p.a.o + size
      ensures life != Static ==> stat == old(stat)
      ensures life != Vstack ==> vstack == old(vstack)
      ensures forall i :: 0 <= i < nframe ==> frames[i] == old(frames[i]).(ptr := frames[i].ptr)
      ensures forall i :: 0 <= i < nframe && (i != fp || life != FrameLife || p.Null?) ==> frames[i] == old(frames[i])
    {
      hide Rounded, AlignUp, FramesOk, OwnedOk, StackOrder, Granted;
      var q := AlignUp(PtrOf(life), align);
      if q + size >= rsize {
        return Null;
      }
      match life {
        case Static => TakeStatic(q, size);
        case FrameLife => TakeFrame(q, size);
        case Vstack => TakeStack(q, size);
      }
      p := At(Addr(RegionOf(life), q));
    }

    /** A write by user code, inside a block it has been given. */
    method Write(a: Addr, b: Byte)
      requires Valid() && a in owned
      modifies mem
      ensures Valid() && mem[a.r, a.o] == b
      ensures forall r, o :: 0 <= r < mem.Length0 && 0 <= o < mem.Length1 && !(r == a.r && o == a.o) ==>
          mem[r, o] == old(mem[r, o])
    {
      hide Rounded, AlignUp;
      mem[a.r, a.o] := b;
    }

    /** What a savepoint at `q` in the region of the frame on top changes. */
    twostate predicate DidSave(q: nat)
      reads this, mem, frames
    {
      && old(Shape()) && fp == old(fp) && nextFid == old(nextFid) && vstack == old(vstack) && stat == old(stat)
      && owned == old(owned)
      && q % BLOCK == 0 && old(frames[fp].ptr) <= q && q + vstack < rsize && !old(frames[fp].save)
      && frames[fp] == old(frames[fp]).(ptr := q + vstack, spData := q, spPtr := vstack, save := true)
      && (forall i :: 0 <= i < nframe && i != fp ==> frames[i] == old(frames[i]))
      && mem.Length0 == nframe + 2 && mem.Length1 == rsize && Bytes(fp + 1, q, vstack) == old(Contents())
      && (forall r, o :: 0 <= r < nframe + 2 && 0 <= o < rsize && !(r == fp + 1 && q <= o < q + Rounded(vstack)) ==>
          mem[r, o] == old(mem[r, o]))
      && saved == old(saved)[old(frames[fp].fid) := old(Contents())]
    }

    twostate lemma SavedSnaps(q: nat)
      requires old(Valid()) && DidSave(q) && Shape()
      ensures forall i :: 0 <= i <= fp ==> SnapOk(i)
    {
      hide AlignUp, OwnedOk, StackOrder, Rounded;
      RoundedFits(q, vstack);
      forall i | 0 <= i < fp
        ensures SnapOk(i)
      {
        assert old(SnapOk(i)) && old(frames[i].fid) < old(frames[fp].fid);
        assert frames[i].save ==>
            Bytes(i + 1, frames[i].spData, frames[i].spPtr) == old(Bytes(i + 1, frames[i].spData, frames[i].spPtr));
      }
    }

    /** Whole blocks from a block boundary stay inside the region. */
    lemma RoundedFits(q: nat, n: nat)
      requires q % BLOCK == 0 && rsize % BLOCK == 0 && q + n <= rsize
      ensures q + Rounded(n) <= rsize
    {
    }

    twostate lemma SavedFrames(q: nat)
      requires old(Valid()) && DidSave(q) && Shape()
      ensures FramesOk(fp + 1) && StackOrder(fp + 1) && SavedKept() && Contents() == old(Contents())
    {
      hide AlignUp, OwnedOk, Rounded, SnapOk;
      SavedSnaps(q);
    }

    twostate lemma SavedOwned(q: nat)
      requires old(Valid()) && DidSave(q) && Shape()
      ensures OwnedOk(fp + 1)
      ensures forall a :: a in owned ==> a.r < nframe + 2 && a.o < rsize && mem[a.r, a.o] == old(mem[a.r, a.o])
    {
      hide AlignUp, Rounded, SnapOk, StackOrder, Contents, Bytes;
      assert old(FramesOk(fp + 1));
    }

    /** `sim_savepoint`: copies the live stack into the frame's region. No byte that user code owns changes. */
    method Savepoint() returns (st: Status)
      requires Valid()
      modifies this`saved, mem, frames
      ensures Valid() && SavedKept()
      ensures st == if old(frames[fp].save) then ESave else if Fits(old(frames[fp].ptr), vstack, BLOCK) then Ok
          else EAlloc
      ensures forall i :: 0 <= i < nframe && i != fp ==> frames[i] == old(frames[i])
      ensures frames[fp].branch == old(frames[fp].branch) && frames[fp].fid == old(frames[fp].fid)
      ensures forall a :: a in owned ==> a.r < nframe + 2 && a.o < rsize && mem[a.r, a.o] == old(mem[a.r, a.o])
      ensures Contents() == old(Contents())
      ensures st == Ok ==>
          frames[fp].save && frames[fp].spPtr == vstack && saved == old(saved)[frames[fp].fid := old(Contents())]
      ensures st == Ok ==> frames[fp].ptr == AlignUp(old(frames[fp].ptr), BLOCK) + vstack
      ensures st != Ok ==> saved == old(saved)
      ensures st == ESave ==> frames[fp] == old(frames[fp])
      ensures st == EAlloc ==> frames[fp] == old(frames[fp]).(spData := 0, spPtr := vstack)
    {
      hide Rounded, AlignUp, FramesOk, OwnedOk, StackOrder, Bytes;
      OwnedInside();
      var f := frames[fp];
      if f.save {
        return ESave;
      }
      var q := AlignUp(f.ptr, BLOCK);
      if q + vstack >= rsize {
        NoSave();
        return EAlloc;
      }
      frames[fp] := f.(ptr := q + vstack, spData := q, spPtr := vstack, save := true);
      RoundedFits(q, vstack);
      RoundedFits(0, vstack);
      ghost var c := Contents();
      BlockCopy(fp + 1, q, nframe + 1, 0, vstack);
      saved := saved[f.fid := c];
      assert Bytes(fp + 1, q, vstack) == c;
      SavedFrames(q);
      SavedOwned(q);
      st := Ok;
    }

    /** Without room for the savepoint, only the frame's pointers have been set. */
    method NoSave()
      requires Valid() && !frames[fp].save
      modifies frames
      ensures Valid() && frames[fp] == old(frames[fp]).(spData := 0, spPtr := vstack)
      ensures forall i :: 0 <= i < nframe && i != fp ==> frames[i] == old(frames[i])
    {
      hide Rounded, AlignUp, Bytes;
      frames[fp] := frames[fp].(spData := 0, spPtr := vstack);
    }

    lemma OwnedInside()
      requires Valid()
      ensures forall a :: a in owned ==> a.r < nframe + 2 && a.o < rsize
    {
      hide Rounded, AlignUp, SnapOk, StackOrder, Bytes;
    }

    /** `sim_up`: back to an earlier frame. */
    method Up(n: nat) returns (st: Status)
      requires Valid()
      modifies this`fp
      ensures Valid() && st == (if n > old(fp) then EFrame else Ok) && fp == (if n > old(fp) then old(fp) else n)
    {
      hide Rounded, AlignUp;
      if n > fp {
        return EFrame;
      }
      fp := n;
      st := Ok;
    }

    /** Without the stack addresses from the stack pointer on. */
    function InStack(s: set<Addr>): (k: set<Addr>)
      reads this`vstack
      ensures forall a :: a in k <==> a in s && (a.r == nframe + 1 ==> a.o < vstack)
    {
      set a | a in s && (a.r == nframe + 1 ==> a.o < vstack)
    }

    lemma OwnedInStack()
      requires Valid()
      ensures InStack(owned) == owned
    {
      hide Rounded, AlignUp, FramesOk, StackOrder;
    }

    /** What a reload changes. */
    twostate predicate DidReload()
      reads this, mem, frames
    {
      && old(Valid()) && fp == old(fp) && nextFid == old(nextFid) && stat == old(stat) && saved == old(saved)
      && frames[fp].save
      && vstack == frames[fp].spPtr
      && (forall a :: a in owned <==> a in old(owned) && (a.r == nframe + 1 ==> a.o < vstack))
      && (forall i :: 0 <= i < nframe ==> frames[i] == old(frames[i]))
      && (vstack <= rsize && frames[fp].spData + vstack <= rsize)
      && Bytes(nframe + 1, 0, vstack) == old(Bytes(fp + 1, frames[fp].spData, frames[fp].spPtr))
      && (forall r, o :: 0 <= r < nframe + 1 && 0 <= o < rsize ==> mem[r, o] == old(mem[r, o]))
    }

    twostate lemma ReloadedFrames()
      requires DidReload() && Shape()
      ensures FramesOk(fp + 1) && StackOrder(fp + 1)
      ensures frames[fp].fid in saved && Contents() == saved[frames[fp].fid]
    {
      hide AlignUp, OwnedOk, Rounded;
      forall i | 0 <= i <= fp
        ensures SnapOk(i)
      {
        assert old(SnapOk(i));
        assert frames[i].save ==>
            Bytes(i + 1, frames[i].spData, frames[i].spPtr) == old(Bytes(i + 1, frames[i].spData, frames[i].spPtr));
      }
    }

    twostate lemma ReloadedOwned()
      requires DidReload() && Shape()
      ensures OwnedOk(fp + 1)
    {
      hide AlignUp, Rounded, SnapOk, FramesOk, StackOrder, Contents, Bytes;
    }

    /** `sim_reload`: restores the stack pointer and every byte below it from the savepoint of the frame on top. */
    method Reload() returns (st: Status)
      requires Valid()
      modifies this`vstack, this`owned, mem
      ensures Valid() && st == (if frames[fp].save then Ok else ESave)
      ensures st == Ok ==> frames[fp].fid in saved && Contents() == saved[frames[fp].fid]
      ensures st != Ok ==> vstack == old(vstack) && owned == old(owned) && Contents() == old(Contents())
      ensures owned == InStack(old(owned))
      ensures forall r, o :: 0 <= r < nframe + 1 && 0 <= o < rsize ==> mem[r, o] == old(mem[r, o])
    {
      hide Rounded, AlignUp, FramesOk, OwnedOk, StackOrder, Bytes;
      OwnedInStack();
      var f := frames[fp];
      if !f.save {
        return ESave;
      }
      SnapInside();
      vstack := f.spPtr;
      BlockCopy(nframe + 1, 0, fp + 1, f.spData, f.spPtr);
      owned := InStack(owned);
      assert Bytes(nframe + 1, 0, vstack) == old(Bytes(fp + 1, frames[fp].spData, frames[fp].spPtr));
      ReloadedFrames();
      ReloadedOwned();
      st := Ok;
    }

    lemma SnapInside()
      requires Valid() && frames[fp].save
      ensures frames[fp].spPtr <= vstack && frames[fp].spData + Rounded(frames[fp].spPtr) <= rsize
      ensures Rounded(frames[fp].spPtr) <= rsize
    {
      hide AlignUp, Rounded, OwnedOk;
      assert SnapOk(fp);
    }

    /** `sim_load`: rolls back to the savepoint of an earlier frame. The stack and its contents are those that this
        activation of the frame saved, whatever has happened since. */
    method Load(n: nat) returns (st: Status)
      requires Valid()
      modifies this`fp, this`vstack, this`owned, mem
      ensures Valid() && st == (if n > old(fp) then EFrame else if frames[n].save then Ok else ESave)
      ensures fp == (if n > old(fp) then old(fp) else n)
      ensures st == Ok ==> frames[n].fid in saved && Contents() == saved[frames[n].fid]
      ensures st != Ok ==> vstack == old(vstack) && Contents() == old(Contents())
      ensures owned == InStack(old(owned))
      ensures forall r, o :: 0 <= r < nframe + 1 && 0 <= o < rsize ==> mem[r, o] == old(mem[r, o])
    {
      hide FramesOk, OwnedOk, StackOrder, Bytes;
      OwnedInStack();
      st := Up(n);
      if st == Ok {
        st := Reload();
      }
    }

    /** `sim_enter`: a fresh activation of the next frame. */
    method Enter() returns (st: Status)
      requires Valid()
      modifies this`fp, this`nextFid, this`owned, frames
      ensures Valid() && st == (if old(fp) + 1 >= nframe then EFrame else Ok)
      ensures st == Ok ==>
          fp == old(fp) + 1 && !frames[fp].save && !frames[fp].branch && frames[fp].fid == old(nextFid)
          && frames[fp].ptr == 0
      ensures st != Ok ==> fp == old(fp) && owned == old(owned)
      ensures st == Ok ==> owned == set a | a in old(owned) && a.r != fp + 1
      ensures forall i :: 0 <= i <= old(fp) ==> frames[i] == old(frames[i])
      ensures Contents() == old(Contents())
    {
      hide Rounded, AlignUp, Bytes;
      if fp + 1 >= nframe {
        return EFrame;
      }
      fp := fp + 1;
      EnterFrame();
      st := Ok;
    }

    /** `sim_branch`: a branch point, with a savepoint. The frame counts as a branch point even if saving fails. */
    method Branch() returns (st: Status)
      requires Valid()
      modifies this`saved, mem, frames
      ensures Valid() && SavedKept()
      ensures forall i :: 0 <= i < nframe && i != fp ==> frames[i] == old(frames[i])
      ensures frames[fp].branch && frames[fp].fid == old(frames[fp].fid)
      ensures st == (if old(frames[fp].branch) then EBranch else if old(frames[fp].save) then ESave
                     else if Fits(old(frames[fp].ptr), vstack, BLOCK) then Ok else EAlloc)
      ensures Contents() == old(Contents())
      ensures st == Ok ==>
          frames[fp].save && frames[fp].spPtr == vstack && saved == old(saved)[frames[fp].fid := old(Contents())]
      ensures st == Ok ==> frames[fp].ptr == AlignUp(old(frames[fp].ptr), BLOCK) + vstack
      ensures st != Ok ==>
          saved == old(saved) && frames[fp].save == old(frames[fp].save) && frames[fp].ptr == old(frames[fp].ptr)
      ensures forall a :: a in owned ==> a.r < nframe + 2 && a.o < rsize && mem[a.r, a.o] == old(mem[a.r, a.o])
      ensures st == ESave || st == EBranch ==> frames[fp].spPtr == old(frames[fp].spPtr)
    {
      hide FramesOk, OwnedOk, StackOrder, Bytes;
      OwnedInside();
      if frames[fp].branch {
        return EBranch;
      }
      MarkBranch();
      st := Savepoint();
    }

    method MarkBranch()
      requires Valid()
      modifies frames
      ensures Valid() && frames[fp] == old(frames[fp]).(branch := true)
      ensures forall i :: 0 <= i < nframe && i != fp ==> frames[i] == old(frames[i])
    {
      hide Rounded, AlignUp, Bytes;
      frames[fp] := frames[fp].(branch := true);
    }

    /** `sim_enter_branch`: starts the next alternative of the branch point at frame `n`. */
    method EnterBranch(n: nat) returns (st: Status)
      requires Valid()
      modifies this`fp, this`nextFid, this`vstack, this`owned, mem, frames
      ensures Valid()
      ensures st == Ok <==>
          n <= old(fp) && (n == old(fp) || old(frames[n].save)) && old(frames[n].branch) && n + 1 < nframe
      ensures st == Ok ==> fp == n + 1 && !frames[fp].save && !frames[fp].branch && frames[fp].ptr == 0
      ensures st != Ok ==> fp == if n > old(fp) then old(fp) else n
      ensures owned == set a | a in InStack(old(owned)) && (st == Ok ==> a.r != fp + 1)
      ensures st != Ok && !(n < old(fp) && old(frames[n].save)) ==> Contents() == old(Contents())
      ensures st != Ok && n < old(fp) && old(frames[n].save) ==>
          frames[n].fid in saved && Contents() == saved[frames[n].fid]
      ensures st == Ok && n == old(fp) ==> Contents() == old(Contents())
      ensures st == Ok && n != old(fp) ==> frames[n].fid in saved && Contents() == saved[frames[n].fid]
      ensures forall i :: 0 <= i <= n && i < nframe && i <= old(fp) ==> frames[i] == old(frames[i])
      ensures forall r, o :: 0 <= r < nframe + 1 && 0 <= o < rsize ==> mem[r, o] == old(mem[r, o])
      ensures st == if n > old(fp) then EFrame else if n < old(fp) && !old(frames[n].save) then ESave
          else if !old(frames[n].branch) then EBranch else if n + 1 < nframe then Ok else EFrame
    {
      hide FramesOk, OwnedOk, StackOrder, Bytes, Contents;
      OwnedInStack();
      if n != fp {
        st := Load(n);
        if st != Ok {
          return;
        }
      }
      if !frames[fp].branch {
        return EBranch;
      }
      st := Enter();
    }

    /** What user code sees of the stack. */
    method Read() returns (s: seq<Byte>)
      requires Shape()
      ensures s == Contents()
    {
      var n, v := vstack, nframe + 1;
      s := [];
      for i := 0 to n
        invariant s == Contents()[..i]
      {
        s := s + [mem[v, i]];
      }
    }

    /** What user code does to the stack in one go: it may overwrite all of it and allocate more. */
    method Replace(after: seq<Byte>) returns (ok: bool)
      requires Valid() && |after| >= vstack
      modifies this`vstack, mem
      ensures Valid() && ok == (|after| < rsize)
      ensures ok ==> Contents() == after
      ensures !ok ==> Contents() == old(Contents())
    {
      hide Rounded, AlignUp, FramesOk, OwnedOk, StackOrder, Bytes;
      ok := |after| < rsize;
      if ok {
        Overwrite(after);
        Replaced();
      }
    }

    method Overwrite(after: seq<Byte>)
      requires Shape() && |after| < rsize
      modifies this`vstack, mem
      ensures Shape() && vstack == |after| && Contents() == after
      ensures forall r, o :: 0 <= r < nframe + 1 && 0 <= o < rsize ==> mem[r, o] == old(mem[r, o])
    {
      var v := nframe + 1;
      for i := 0 to |after|
        invariant forall o :: 0 <= o < i ==> mem[v, o] == after[o]
        invariant forall r, o :: 0 <= r < nframe + 1 && 0 <= o < rsize ==> mem[r, o] == old(mem[r, o])
      {
        mem[v, i] := after[i];
      }
      vstack := |after|;
    }

    /** The frames do not care what is in the stack region. */
    twostate lemma Replaced()
      requires old(Valid()) && Shape() && vstack >= old(vstack) && unchanged(frames)
      requires fp == old(fp) && nextFid == old(nextFid) && saved == old(saved) && owned == old(owned)
      requires stat == old(stat)
      requires forall r, o :: 0 <= r < nframe + 1 && 0 <= o < rsize ==> mem[r, o] == old(mem[r, o])
      ensures Valid()
    {
      hide AlignUp, Rounded;
      forall i | 0 <= i <= fp
        ensures SnapOk(i)
      {
        assert old(SnapOk(i));
        assert frames[i].save ==>
            Bytes(i + 1, frames[i].spData, frames[i].spPtr) == old(Bytes(i + 1, frames[i].spData, frames[i].spPtr));
      }
    }
  }
}
