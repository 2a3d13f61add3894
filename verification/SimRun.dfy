/** Whole runs of the simulator: any sequence of operations, with user writes inside allocated blocks. What each of them
    does is said on what user code can see: its stack, its bytes, and the frames with what they hold. */
module SimRuns {
  import opened Sims

  datatype Op =
    | DoAlloc(size: nat, align: nat, life: Lifetime) | DoWrite(a: Addr, b: Byte)
    | DoSavepoint | DoUp(n: nat) | DoReload | DoLoad(n: nat) | DoEnter | DoBranch | DoEnterBranch(n: nat)

  /** What an operation returns: a block, or a status. */
  datatype Result = Got(p: Ptr) | Did(st: Status)

  // ---------- what it should do ----------

  datatype Snapshot = Unsaved | Holds(stack: seq<Byte>)

  /** A live frame: how much of its region is in use, whether it is a branch point, and what it has saved. */
  datatype FrameView = FrameView(ptr: nat, branch: bool, saved: Snapshot)

  /** The bytes of the static region in use, the stack, the live frames, the addresses that user code has been given,
      and what it has there outside the stack. */
  datatype State = State(stat: nat, stack: seq<Byte>, frames: seq<FrameView>, mine: set<Addr>, heap: map<Addr, Byte>)

  /** How many frames there may be, and how large a region is. */
  datatype Dims = Dims(nframe: nat, rsize: nat)

  function Region(c: Dims, q: State, life: Lifetime): nat {
    if life.Static? then 0 else if life.FrameLife? then |q.frames| else c.nframe + 1
  }

  function Top(q: State): FrameView
    requires q.frames != []
  {
    q.frames[|q.frames| - 1]
  }

  function Pointer(q: State, life: Lifetime): nat
    requires q.frames != []
  {
    if life.Static? then q.stat else if life.FrameLife? then Top(q).ptr else |q.stack|
  }

  /** A savepoint must end before the end of the frame's region, and there can be only one. */
  function SaveStatus(c: Dims, q: State): Status
    requires q.frames != []
  {
    if Top(q).saved.Holds? then ESave else if AlignUp(Top(q).ptr, BLOCK) + |q.stack| < c.rsize then Ok else EAlloc
  }

  /** What an operation has to return. */
  function Expected(c: Dims, q: State, op: Op): Result
    requires q.frames != []
  {
    match op
    case DoAlloc(size, align, life) =>
      if align > 0 && AlignUp(Pointer(q, life), align) + size < c.rsize
      then Got(At(Addr(Region(c, q, life), AlignUp(Pointer(q, life), align))))
      else Got(Null)
    case DoWrite(a, b) => Did(Ok)
    case DoSavepoint => Did(SaveStatus(c, q))
    case DoUp(n) => Did(if n < |q.frames| then Ok else EFrame)
    case DoReload => Did(if Top(q).saved.Holds? then Ok else ESave)
    case DoLoad(n) => Did(if n >= |q.frames| then EFrame else if q.frames[n].saved.Holds? then Ok else ESave)
    case DoEnter => Did(if |q.frames| < c.nframe then Ok else EFrame)
    case DoBranch => Did(if Top(q).branch then EBranch else SaveStatus(c, q))
    case DoEnterBranch(n) =>
      Did(if n >= |q.frames| then EFrame
          else if n + 1 < |q.frames| && q.frames[n].saved.Unsaved? then ESave
          else if !q.frames[n].branch then EBranch
          else if n + 1 < c.nframe then Ok else EFrame)
  }

  function WithTop(q: State, f: FrameView): State
    requires q.frames != []
  {
    q.(frames := q.frames[|q.frames| - 1 := f])
  }

  function Saving(c: Dims, q: State): State
    requires q.frames != []
  {
    if SaveStatus(c, q) == Ok
    then WithTop(q, FrameView(AlignUp(Top(q).ptr, BLOCK) + |q.stack|, Top(q).branch, Holds(q.stack)))
    else q
  }

  function Back(q: State, n: nat): State {
    if n < |q.frames| then q.(frames := q.frames[..n + 1]) else q
  }

  /** Without the addresses in region `r`, or those from `end` on. */
  function Without(s: set<Addr>, r: nat): set<Addr> {
    set a | a in s && a.r != r
  }

  function Inside(s: set<Addr>, r: nat, end: nat): set<Addr> {
    set a | a in s && (a.r == r ==> a.o < end)
  }

  /** The stack that the frame on top holds; what user code had been given on the stack beyond it is gone. */
  function Restored(c: Dims, q: State): State
    requires q.frames != []
  {
    if Top(q).saved.Holds?
    then q.(stack := Top(q).saved.stack,
            mine := Inside(q.mine, c.nframe + 1, |Top(q).saved.stack|))
    else q
  }

  /** One more frame, with an empty region. */
  function Entered(q: State): State {
    var r := |q.frames| + 1;
    q.(frames := q.frames + [FrameView(0, false, Unsaved)], mine := Without(q.mine, r),
       heap := map a | a in q.heap && a.r != r :: q.heap[a])
  }

  /** What any operation but an allocation leaves. */
  function After(c: Dims, q: State, op: Op): State
    requires q.frames != []
  {
    match op
    case DoAlloc(size, align, life) => q
    case DoWrite(a, b) =>
      if a !in q.mine then q
      else if a in q.heap then q.(heap := q.heap[a := b])
      else if a.o < |q.stack| then q.(stack := q.stack[a.o := b])
      else q
    case DoSavepoint => Saving(c, q)
    case DoUp(n) => Back(q, n)
    case DoReload => Restored(c, q)
    case DoLoad(n) => if n < |q.frames| then Restored(c, Back(q, n)) else q
    case DoEnter => if |q.frames| < c.nframe then Entered(q) else q
    case DoBranch => if Top(q).branch then q else Saving(c, WithTop(q, Top(q).(branch := true)))
    case DoEnterBranch(n) =>
      if n >= |q.frames| then q
      else
        var k := if n + 1 < |q.frames| then Restored(c, Back(q, n)) else q;
        if Expected(c, q, op) == Did(Ok) then Entered(k) else k
  }

  /** An allocation at `a` takes what is free up to the end of the block, and changes nothing that is there. */
  ghost predicate Allocated(c: Dims, q: State, size: nat, life: Lifetime, a: Addr, b: State)
    requires q.frames != []
  {
    && b.stat == (if life.Static? then a.o + size else q.stat)
    && b.frames == (if life.FrameLife? then WithTop(q, Top(q).(ptr := a.o + size)).frames else q.frames)
    && (if life.Vstack? then |b.stack| == a.o + size && |q.stack| <= |b.stack| && b.stack[..|q.stack|] == q.stack
        else b.stack == q.stack)
    && (forall d :: d in b.mine <==> d in q.mine || (d.r == a.r && a.o <= d.o < a.o + size))
    && (forall d :: d in q.mine ==> !(d.r == a.r && a.o <= d.o < a.o + size))
    && (forall d :: d in q.heap ==> d in b.heap && b.heap[d] == q.heap[d])
  }

  /** One operation takes `q` to `b` and returns `r`. */
  ghost predicate Effect(c: Dims, q: State, op: Op, r: Result, b: State)
    requires q.frames != []
  {
    && r == Expected(c, q, op)
    && if op.DoAlloc? && r != Got(Null) then r.Got? && Allocated(c, q, op.size, op.life, r.p.a, b)
       else b == After(c, q, op)
  }

  /** A whole run: the states in between, one more than operations. */
  ghost predicate RunOf(c: Dims, qs: seq<State>, ops: seq<Op>, rs: seq<Result>) {
    && |qs| == |ops| + 1 && |rs| == |ops|
    && forall i :: 0 <= i < |ops| ==> qs[i].frames != [] && Effect(c, qs[i], ops[i], rs[i], qs[i + 1])
  }

  // ---------- what it does ----------

  /** User code: it knows which bytes it has been given, and writes to no others. */
  class Client {
    const sim: Sim
    var mine: set<Addr>

    constructor (sim: Sim)
      requires sim.Valid() && sim.owned == {}
      ensures Inv() && this.sim == sim
    {
      this.sim, mine := sim, {};
    }

    ghost predicate Inv()
      reads this, sim, sim.mem, sim.frames
    {
      sim.Valid() && mine == sim.owned
    }

    ghost function Size(): Dims {
      Dims(sim.nframe, sim.rsize)
    }

    ghost function FrameAt(i: nat): FrameView
      requires i < sim.frames.Length
      reads sim, sim.frames
    {
      var f := sim.frames[i];
      FrameView(f.ptr, f.branch, if f.save && f.fid in sim.saved then Holds(sim.saved[f.fid]) else Unsaved)
    }

    ghost function FramesNow(): (s: seq<FrameView>)
      requires sim.fp < sim.frames.Length
      ensures |s| == sim.fp + 1 && forall i: nat :: i < |s| ==> s[i] == FrameAt(i)
      reads sim, sim.frames
    {
      seq(sim.fp + 1, i requires 0 <= i < sim.frames.Length reads sim, sim.frames => FrameAt(i))
    }

    ghost function HeapNow(): (h: map<Addr, Byte>)
      requires sim.Shape()
      reads this, sim`vstack, sim`stat, sim`fp, sim.mem
      ensures forall a :: a in h <==> a in mine && a.r <= sim.nframe && a.o < sim.rsize
      ensures forall a :: a in h ==> h[a] == sim.mem[a.r, a.o]
    {
      map a | a in mine && a.r <= sim.nframe && a.o < sim.rsize :: sim.mem[a.r, a.o]
    }

    /** What user code sees. */
    ghost function View(): State
      requires sim.Shape()
      reads this, sim, sim.mem, sim.frames
    {
      State(sim.stat, sim.Contents(), FramesNow(), mine, HeapNow())
    }

    lemma Sizes()
      requires Inv()
      ensures sim.Shape() && FramesNow() != [] && |sim.Contents()| == sim.vstack
      ensures forall a :: a in mine ==> a.r < sim.nframe + 2 && a.o < sim.rsize
      ensures forall a :: a in mine && a.r == sim.nframe + 1 ==> a.o < sim.vstack
      ensures forall i: nat :: i <= sim.fp ==> (FrameAt(i).saved.Holds? <==> sim.frames[i].save)
      ensures forall i: nat :: i < sim.fp ==> sim.frames[i].fid != sim.frames[sim.fp].fid
    {
      hide AlignUp, Rounded;
      sim.OwnedInside();
      forall i: nat | i <= sim.fp
        ensures FrameAt(i).saved.Holds? <==> sim.frames[i].save
      {
        assert sim.SnapOk(i);
      }
    }

    method Alloc(size: nat, align: nat, life: Lifetime) returns (p: Ptr)
      requires Inv() && align > 0
      modifies this, sim, sim.mem, sim.frames
      ensures Inv() && sim.SavedKept() && old(FramesNow()) != []
      ensures Effect(Size(), old(View()), DoAlloc(size, align, life), Got(p), View())
    {
      hide Sim.FramesOk, Sim.StackOrder, Sim.OwnedOk, AlignUp, Effect, Sim.Bytes, FramesNow, HeapNow;
      Sizes();
      ghost var q := View();
      p := TakeBlock(size, align, life);
      Sizes();
      ghost var b := View();
      assert b.stack[..|q.stack|] == q.stack;
      if p.At? && life.FrameLife? {
        assert b.frames == WithTop(q, Top(q).(ptr := p.a.o + size)).frames;
      } else {
        assert b.frames == q.frames;
      }
      AllocEffect(Size(), q, size, align, life, p, b);
    }

    lemma AllocEffect(c: Dims, q: State, size: nat, align: nat, life: Lifetime, p: Ptr, b: State)
      requires align > 0 && q.frames != []
      requires Got(p) == Expected(c, q, DoAlloc(size, align, life))
      requires p.Null? ==> b == q
      requires p.At? ==> Allocated(c, q, size, life, p.a, b)
      ensures Effect(c, q, DoAlloc(size, align, life), Got(p), b)
    {
    }

    method TakeBlock(size: nat, align: nat, life: Lifetime) returns (p: Ptr)
      requires Inv() && align > 0
      modifies this, sim, sim.mem, sim.frames
      ensures Inv() && sim.SavedKept()
      ensures p == if sim.Fits(old(sim.PtrOf(life)), size, align)
          then At(Addr(old(sim.RegionOf(life)), AlignUp(old(sim.PtrOf(life)), align))) else Null
      ensures p.Null? ==> mine == old(mine)
      ensures p.At? ==> mine == old(mine) + sim.Block(p.a.r, p.a.o, size) && old(mine) !! sim.Block(p.a.r, p.a.o, size)
      ensures sim.stat == if p.At? && life.Static? then p.a.o + size else old(sim.stat)
      ensures sim.fp == old(sim.fp) && sim.saved == old(sim.saved) && unchanged(sim.mem)
      ensures sim.vstack == if p.At? && life.Vstack? then p.a.o + size else old(sim.vstack)
      ensures p.At? && life.FrameLife? ==> sim.frames[sim.fp] == old(sim.frames[sim.fp]).(ptr := p.a.o + size)
      ensures forall i :: 0 <= i < sim.nframe && !(i == sim.fp && p.At? && life.FrameLife?) ==>
          sim.frames[i] == old(sim.frames[i])
    {
      hide Sim.FramesOk, Sim.StackOrder, Sim.OwnedOk, Sim.Contents;
      p := sim.Alloc(size, align, life);
      if p.At? {
        mine := mine + sim.Block(p.a.r, p.a.o, size);
        OnlyMultiple(old(sim.PtrOf(life)), align, p.a.o);
      }
    }

    /** There is one multiple of `a` in every stretch of length `a`. */
    lemma OnlyMultiple(p: nat, a: nat, q: nat)
      requires a > 0 && p <= q < p + a && q % a == 0
      ensures q == AlignUp(p, a)
    {
      hide AlignUp;
      var r := AlignUp(p, a);
      MultiplesApart(q, r, a);
    }

    lemma MultiplesApart(q: nat, r: nat, a: nat)
      requires a > 0 && q % a == 0 && r % a == 0 && q < r + a && r < q + a
      ensures q == r
    {
      var i, j := q / a, r / a;
      assert q == i * a && r == j * a;
      if i < j {
        AtLeastOnce(j - i, a);
      } else if j < i {
        AtLeastOnce(i - j, a);
      }
    }

    method Write(a: Addr, b: Byte)
      requires Inv()
      modifies this, sim, sim.mem, sim.frames
      ensures Inv() && sim.SavedKept() && old(FramesNow()) != []
      ensures Effect(Size(), old(View()), DoWrite(a, b), Did(Ok), View())
    {
      hide Sim.FramesOk, Sim.StackOrder, Sim.OwnedOk, AlignUp;
      Sizes();
      ghost var q := View();
      if a in mine {
        sim.Write(a, b);
      }
      SameFrames(q);
      assert View().stack == After(Size(), q, DoWrite(a, b)).stack;
      assert View().heap == After(Size(), q, DoWrite(a, b)).heap;
    }

    lemma SameFrames(q: State)
      requires sim.fp < sim.frames.Length && |q.frames| == sim.fp + 1
      requires forall i: nat :: i <= sim.fp ==> q.frames[i] == FrameAt(i)
      ensures FramesNow() == q.frames
    {
    }

    lemma SameHeap(h: map<Addr, Byte>)
      requires sim.Shape()
      requires forall a :: a in h <==> a in mine && a.r <= sim.nframe && a.o < sim.rsize
      requires forall a :: a in h ==> h[a] == sim.mem[a.r, a.o]
      ensures HeapNow() == h
    {
    }

    method Savepoint() returns (st: Status)
      requires Inv()
      modifies this, sim, sim.mem, sim.frames
      ensures Inv() && sim.SavedKept() && old(FramesNow()) != []
      ensures Effect(Size(), old(View()), DoSavepoint, Did(st), View())
    {
      hide Sim.FramesOk, Sim.StackOrder, Sim.OwnedOk, AlignUp, Sim.Contents, FramesNow, HeapNow;
      Sizes();
      ghost var q := View();
      st := sim.Savepoint();
      Sizes();
      SameHeap(q.heap);
      assert forall i: nat :: i < sim.fp ==> FrameAt(i) == q.frames[i];
      assert st == SaveStatus(Size(), q);
      assert FramesNow() == Saving(Size(), q).frames;
    }

    method Branch() returns (st: Status)
      requires Inv()
      modifies this, sim, sim.mem, sim.frames
      ensures Inv() && sim.SavedKept() && old(FramesNow()) != []
      ensures Effect(Size(), old(View()), DoBranch, Did(st), View())
    {
      hide Sim.FramesOk, Sim.StackOrder, Sim.OwnedOk, AlignUp, Sim.Contents, FramesNow, HeapNow;
      Sizes();
      ghost var q := View();
      st := sim.Branch();
      Sizes();
      SameHeap(q.heap);
      assert forall i: nat :: i < sim.fp ==> FrameAt(i) == q.frames[i];
      assert FramesNow() == After(Size(), q, DoBranch).frames;
    }

    method Up(n: nat) returns (st: Status)
      requires Inv()
      modifies this, sim, sim.mem, sim.frames
      ensures Inv() && sim.SavedKept() && old(FramesNow()) != []
      ensures Effect(Size(), old(View()), DoUp(n), Did(st), View())
    {
      hide Sim.FramesOk, Sim.StackOrder, Sim.OwnedOk, AlignUp, Sim.Bytes, FramesNow, HeapNow;
      Sizes();
      ghost var q := View();
      st := sim.Up(n);
      Sizes();
      SameHeap(q.heap);
      assert FramesNow() == Back(q, n).frames;
    }

    method Reload() returns (st: Status)
      requires Inv()
      modifies this, sim, sim.mem, sim.frames
      ensures Inv() && sim.SavedKept() && old(FramesNow()) != []
      ensures Effect(Size(), old(View()), DoReload, Did(st), View())
    {
      hide Sim.FramesOk, Sim.StackOrder, Sim.OwnedOk, AlignUp, Sim.Contents, FramesNow, HeapNow;
      Sizes();
      ghost var q := View();
      st := sim.Reload();
      mine := sim.InStack(mine);
      Sizes();
      SameHeap(q.heap);
      assert FramesNow() == q.frames;
      assert mine == Restored(Size(), q).mine;
    }

    method Load(n: nat) returns (st: Status)
      requires Inv()
      modifies this, sim, sim.mem, sim.frames
      ensures Inv() && sim.SavedKept() && old(FramesNow()) != []
      ensures Effect(Size(), old(View()), DoLoad(n), Did(st), View())
    {
      hide Sim.FramesOk, Sim.StackOrder, Sim.OwnedOk, AlignUp, Sim.Contents, FramesNow, HeapNow;
      Sizes();
      ghost var q := View();
      st := sim.Load(n);
      mine := sim.InStack(mine);
      Sizes();
      SameHeap(q.heap);
      assert FramesNow() == Back(q, n).frames;
      assert mine == After(Size(), q, DoLoad(n)).mine;
    }

    method Enter() returns (st: Status)
      requires Inv()
      modifies this, sim, sim.mem, sim.frames
      ensures Inv() && sim.SavedKept() && old(FramesNow()) != []
      ensures Effect(Size(), old(View()), DoEnter, Did(st), View())
    {
      hide Sim.FramesOk, Sim.StackOrder, Sim.OwnedOk, AlignUp, Sim.Contents, FramesNow, HeapNow;
      Sizes();
      ghost var q := View();
      st := sim.Enter();
      if st == Ok {
        mine := set a | a in mine && a.r != sim.fp + 1;
      }
      Sizes();
      SameHeap(After(Size(), q, DoEnter).heap);
      assert FramesNow() == After(Size(), q, DoEnter).frames;
    }

    /** The parts of the state after an attempt at the next alternative. */
    lemma NextAlternative(c: Dims, q: State, n: nat)
      requires q.frames != []
      ensures var e, k := Expected(c, q, DoEnterBranch(n)), After(c, q, DoEnterBranch(n));
        var back := n + 1 < |q.frames| && q.frames[n].saved.Holds?;
        && k.stat == q.stat
        && k.stack == (if back then q.frames[n].saved.stack else q.stack)
        && k.frames == Back(q, n).frames + (if e == Did(Ok) then [FrameView(0, false, Unsaved)] else [])
        && (forall a :: a in k.mine <==>
              && a in q.mine && (e == Did(Ok) ==> a.r != n + 2)
              && (back && a.r == c.nframe + 1 ==> a.o < |q.frames[n].saved.stack|))
        && (forall a :: a in k.heap <==> a in q.heap && (e == Did(Ok) ==> a.r != n + 2))
        && (forall a :: a in k.heap ==> k.heap[a] == q.heap[a])
    {
    }

    method EnterBranch(n: nat) returns (st: Status)
      requires Inv()
      modifies this, sim, sim.mem, sim.frames
      ensures Inv() && sim.SavedKept() && old(FramesNow()) != []
      ensures Effect(Size(), old(View()), DoEnterBranch(n), Did(st), View())
    {
      hide AlignUp, FramesNow, HeapNow, After, Effect, Expected, View, Inv;
      Sizes();
      ghost var q := View();
      Parts();
      st := Jump(n, q);
      Parts();
      ghost var k := After(Size(), q, DoEnterBranch(n));
      NextAlternative(Size(), q, n);
      SameHeap(k.heap);
      assert mine == k.mine;
      EnterEffect(Size(), q, n, Did(st), View());
    }

    /** The parts of the present state. */
    lemma Parts()
      requires Inv()
      ensures sim.Shape()
      ensures View() == State(sim.stat, sim.Contents(), FramesNow(), mine, HeapNow())
    {
    }

    /** The next alternative, part by part. */
    method Jump(n: nat, ghost q: State) returns (st: Status)
      requires Inv() && q == View()
      modifies this, sim, sim.mem, sim.frames
      ensures Inv() && sim.SavedKept() && q.frames != [] && sim.stat == q.stat
      ensures Did(st) == Expected(Size(), q, DoEnterBranch(n))
      ensures FramesNow() == Back(q, n).frames + if st == Ok then [FrameView(0, false, Unsaved)] else []
      ensures var back := n + 1 < |q.frames| && q.frames[n].saved.Holds?;
        && sim.Contents() == (if back then q.frames[n].saved.stack else q.stack)
        && (forall a :: a in mine <==>
              && a in q.mine && (st == Ok ==> a.r != n + 2)
              && (back && a.r == sim.nframe + 1 ==> a.o < |q.frames[n].saved.stack|))
      ensures forall a :: a in q.heap && a in mine ==>
          a.r <= sim.nframe && a.o < sim.rsize && sim.mem[a.r, a.o] == q.heap[a]
      ensures forall a :: a in mine && a.r <= sim.nframe ==> a in q.heap
    {
      hide Sim.FramesOk, Sim.StackOrder, Sim.OwnedOk, AlignUp, Sim.Contents, FramesNow, HeapNow, After, Effect,
          Restored, Entered, Back, Expected;
      Sizes();
      st := sim.EnterBranch(n);
      var s := sim.InStack(mine);
      mine := set a | a in s && (st == Ok ==> a.r != sim.fp + 1);
      Sizes();
      EnterStatus(Size(), q, n);
      EnteredFrames(q, n, st == Ok);
    }

    lemma EnteredFrames(q: State, n: nat, ok: bool)
      requires sim.fp < sim.frames.Length && q.frames != []
      requires sim.fp + 1 == (if n < |q.frames| then n + 1 else |q.frames|) + if ok then 1 else 0
      requires forall i: nat :: i < |q.frames| && i <= n ==> FrameAt(i) == q.frames[i]
      requires ok ==> FrameAt(sim.fp) == FrameView(0, false, Unsaved)
      ensures FramesNow() == Back(q, n).frames + if ok then [FrameView(0, false, Unsaved)] else []
    {
      hide FrameAt;
    }

    lemma EnterStatus(c: Dims, q: State, n: nat)
      requires q.frames != []
      ensures Expected(c, q, DoEnterBranch(n)) ==
        Did(if n >= |q.frames| then EFrame
            else if n + 1 < |q.frames| && q.frames[n].saved.Unsaved? then ESave
            else if !q.frames[n].branch then EBranch
            else if n + 1 < c.nframe then Ok else EFrame)
    {
    }

    lemma EnterEffect(c: Dims, q: State, n: nat, r: Result, b: State)
      requires q.frames != [] && r == Expected(c, q, DoEnterBranch(n)) && b == After(c, q, DoEnterBranch(n))
      ensures Effect(c, q, DoEnterBranch(n), r, b)
    {
    }

    /** One operation; whatever it is, it does what it should, and no earlier snapshot changes. Errors leave the
        simulator well formed, too. */
    method Do(op: Op) returns (r: Result)
      requires Inv()
      modifies this, sim, sim.mem, sim.frames
      ensures Inv() && sim.SavedKept() && old(View()).frames != []
      ensures Effect(Size(), old(View()), op, r, View())
    {
      hide Sim.Valid, Effect, View, FramesNow;
      SomeFrame();
      match op {
        case DoAlloc(size, align, life) =>
          if align == 0 {
            r := Got(Null);
            NoBlock(size, align, life);
          } else {
            var p := Alloc(size, align, life);
            r := Got(p);
          }
        case DoWrite(a, b) =>
          Write(a, b);
          r := Did(Ok);
        case DoSavepoint =>
          var st := Savepoint();
          r := Did(st);
        case DoUp(n) =>
          var st := Up(n);
          r := Did(st);
        case DoReload =>
          var st := Reload();
          r := Did(st);
        case DoLoad(n) =>
          var st := Load(n);
          r := Did(st);
        case DoEnter =>
          var st := Enter();
          r := Did(st);
        case DoBranch =>
          var st := Branch();
          r := Did(st);
        case DoEnterBranch(n) =>
          var st := EnterBranch(n);
          r := Did(st);
      }
    }

    /** Any sequence of operations: each one returns what it should and takes the state on as it should, so that the
        present state and its frames are those of such a run, and no snapshot has changed. */
    method RunAll(ops: seq<Op>) returns (rs: seq<Result>, ghost qs: seq<State>)
      requires Inv()
      modifies this, sim, sim.mem, sim.frames
      ensures Inv() && sim.SavedKept()
      ensures RunOf(Size(), qs, ops, rs) && qs[0] == old(View()) && qs[|ops|] == View()
    {
      hide Inv, Effect, View, FramesNow;
      InvShape();
      rs, qs := [], [View()];
      for i := 0 to |ops|
        invariant Inv() && sim.Shape() && sim.SavedKept()
        invariant RunOf(Size(), qs, ops[..i], rs) && qs[0] == old(View()) && qs[i] == View()
      {
        var r := Do(ops[i]);
        InvShape();
        LongerRun(Size(), qs, ops[..i], rs, ops[i], r, View());
        assert ops[..i + 1] == ops[..i] + [ops[i]];
        rs, qs := rs + [r], qs + [View()];
      }
      assert ops[..|ops|] == ops;
    }

    lemma InvShape()
      requires Inv()
      ensures sim.Shape() && sim.Valid()
    {
    }

    lemma SomeFrame()
      requires Inv()
      ensures sim.Shape() && View().frames != []
    {
    }

    lemma LongerRun(c: Dims, qs: seq<State>, ops: seq<Op>, rs: seq<Result>, op: Op, r: Result, b: State)
      requires RunOf(c, qs, ops, rs) && qs[|ops|].frames != [] && Effect(c, qs[|ops|], op, r, b)
      ensures RunOf(c, qs + [b], ops + [op], rs + [r])
    {
      hide Effect;
    }

    lemma NoBlock(size: nat, align: nat, life: Lifetime)
      requires Inv() && align == 0
      ensures sim.Shape() && FramesNow() != []
      ensures Effect(Size(), View(), DoAlloc(size, align, life), Got(Null), View())
    {
      hide Sim.FramesOk, Sim.StackOrder, Sim.OwnedOk, Sim.Contents, FramesNow, HeapNow;
      Sizes();
    }

    /** Saves, runs anything at all, and goes back: as long as this activation of the frame is still on the frame
        stack, the stack region is what it was, byte for byte. */
    method SaveRunLoad(ops: seq<Op>) returns (saved: bool, back: bool)
      requires Inv()
      modifies this, sim, sim.mem, sim.frames
      ensures Inv()
      ensures saved == (!old(sim.frames[sim.fp].save) && sim.Fits(old(sim.frames[sim.fp].ptr), old(sim.vstack), BLOCK))
      ensures saved && back ==> sim.fp == old(sim.fp) && sim.Contents() == old(sim.Contents())
      ensures saved && !back ==> !Live(old(sim.fp), old(sim.frames[sim.fp].fid))
    {
      hide Sim.FramesOk, Sim.StackOrder, Sim.OwnedOk, Sim.Contents;
      var n, id := sim.fp, sim.frames[sim.fp].fid;
      var st := sim.Savepoint();
      saved, back := st == Ok, false;
      if saved {
        var rs, qs := RunAll(ops);
        if n <= sim.fp && sim.frames[n].fid == id {
          StillSaved(n);
          st := sim.Load(n);
          mine := sim.InStack(mine);
          back := true;
        }
      }
    }

    /** Frame `n` is on the frame stack, in its activation `id`. */
    predicate Live(n: nat, id: nat)
      reads sim, sim.frames
    {
      n <= sim.fp && n < sim.frames.Length && sim.frames[n].fid == id
    }

    /** An activation that has a snapshot has its savepoint. */
    lemma StillSaved(n: nat)
      requires sim.Valid() && n <= sim.fp && sim.frames[n].fid in sim.saved
      ensures sim.frames[n].save
    {
      hide Sim.SnapOk, Sim.OwnedOk, Sim.StackOrder;
    }
  }
}
