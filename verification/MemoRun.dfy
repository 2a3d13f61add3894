/** Whole runs of memoized calls: any sequence of calls, savepoints, jumps, loads, branches, allocations and writes. */
module MemoRuns {
  import opened Sims
  import opened Memos

  datatype Op =
    | DoCall(arg: Value, now: Value) | DoAlloc(size: nat, align: nat, life: Lifetime) | DoWrite(a: Addr, b: Byte)
    | DoSavepoint | DoUp(n: nat) | DoReload | DoLoad(n: nat) | DoEnter | DoBranch | DoEnterBranch(n: nat)

  /** What an operation returns: the result of a call, or a status. */
  datatype Result = Ret(ret: Value) | Did(st: Status)

  // ---------- what it should be ----------

  /** A one-entry memo, and what each live frame has saved of it. */
  datatype Memory = Memory(memo: Option<Entry>, saves: seq<Option<Option<Entry>>>)

  function Truncated(q: Memory, n: nat): (r: Memory) {
    if n < |q.saves| then q.(saves := q.saves[..n + 1]) else q
  }

  /** Back to what the frame on top has saved. */
  function Restored(q: Memory): Memory {
    if q.saves != [] && q.saves[|q.saves| - 1].Some? then q.(memo := q.saves[|q.saves| - 1].value) else q
  }

  function Saved(q: Memory): Memory {
    if q.saves == [] then q else q.(saves := q.saves[|q.saves| - 1 := Some(q.memo)])
  }

  function Entered(q: Memory): Memory {
    q.(saves := q.saves + [None])
  }

  /** The memory after an operation that returned `r`. */
  function After(q: Memory, op: Op, r: Result): Memory {
    match op
    case DoCall(arg, now) => q.(memo := Some(Answer(q.memo, arg, now)))
    case DoAlloc(size, align, life) => q
    case DoWrite(a, b) => q
    case DoSavepoint => if r == Did(Ok) then Saved(q) else q
    case DoUp(n) => Truncated(q, n)
    case DoReload => Restored(q)
    case DoLoad(n) => if n < |q.saves| then Restored(Truncated(q, n)) else q
    case DoEnter => if r == Did(Ok) then Entered(q) else q
    case DoBranch => if r == Did(Ok) then Saved(q) else q
    case DoEnterBranch(n) =>
      var k := if n + 1 < |q.saves| then Restored(Truncated(q, n)) else q;
      if r == Did(Ok) then Entered(k) else k
  }

  /** A call returns what the memo has. */
  predicate Answers(q: Memory, op: Op, r: Result) {
    op.DoCall? ==> r == Ret(Answer(q.memo, op.arg, op.now).ret)
  }

  /** All calls do. */
  predicate AllAnswer(q: Memory, ops: seq<Op>, rs: seq<Result>)
    requires |rs| == |ops|
    decreases |ops|
  {
    ops == [] || (Answers(q, ops[0], rs[0]) && AllAnswer(After(q, ops[0], rs[0]), ops[1..], rs[1..]))
  }

  function Afters(q: Memory, ops: seq<Op>, rs: seq<Result>): Memory
    requires |rs| == |ops|
    decreases |ops|
  {
    if ops == [] then q else Afters(After(q, ops[0], rs[0]), ops[1..], rs[1..])
  }

  function Calls(ops: seq<Op>): nat {
    if ops == [] then 0 else (if ops[0].DoCall? then 1 else 0) + Calls(ops[1..])
  }

  // ---------- what it is ----------

  /** User code: it knows which bytes it has been given, besides the level. */
  class Client {
    const memo: Memo
    var mine: set<Addr>

    constructor (memo: Memo)
      requires memo.Base() && memo.sim.owned == {Addr(memo.sim.nframe + 1, memo.off)}
      requires forall i: nat :: i <= memo.sim.fp && i < memo.sim.frames.Length ==> !memo.sim.frames[i].save
      ensures this.memo == memo && Inv(Memory(memo.memo, seq(memo.sim.fp + 1, _ => None)))
    {
      this.memo, mine := memo, {};
    }

    ghost function Level(): Addr {
      Addr(memo.sim.nframe + 1, memo.off)
    }

    /** What frame `i` has saved; where it has a savepoint, the level is in it. */
    ghost predicate SaveIs(i: nat, s: Option<Option<Entry>>)
      reads memo, memo.sim, memo.sim.frames
    {
      && i < memo.sim.frames.Length
      && if memo.sim.frames[i].save
         then
           memo.SavedLevel(i) && memo.sim.frames[i].fid in memo.memos && s == Some(memo.memos[memo.sim.frames[i].fid])
         else s == None
    }

    /** The memo and its saved versions are those of `q`. */
    ghost predicate Inv(q: Memory)
      reads this, memo, memo.sim, memo.sim.mem, memo.sim.frames
    {
      && memo.Base() && mine == memo.sim.owned - {Level()}
      && memo.memo == q.memo && |q.saves| == memo.sim.fp + 1 && forall i: nat :: i < |q.saves| ==> SaveIs(i, q.saves[i])
    }

    /** The level of the next miss hits no saved memo. */
    ghost predicate Fits(op: Op)
      requires memo.Base()
      reads memo, memo.sim, memo.sim.mem, memo.sim.frames
    {
      op.DoCall? ==>
        memo.Hit(op.arg) || memo.Harmless(Stored(NextLevel(memo.Level(), memo.sim.fp)), Entry(op.arg, op.now))
    }

    /** The levels of `k` more misses fit into their 8 bits. */
    ghost predicate Room(k: nat)
      requires memo.Base()
      reads memo, memo.sim, memo.sim.mem, memo.sim.frames
    {
      memo.Ordered() && memo.Level() + k <= 255 && memo.sim.nframe + k <= 255
    }

    lemma RoomFits(op: Op, k: nat)
      requires memo.Base() && Room(k) && Calls([op]) <= k
      ensures Fits(op)
    {
      hide Sim.Valid;
      if op.DoCall? {
        assert Calls([op]) == 1 + Calls([op][1..]);
        FrameInRange();
        memo.FitsHarmless(Entry(op.arg, op.now));
      }
    }

    lemma FrameInRange()
      requires memo.Base()
      ensures memo.sim.fp < memo.sim.nframe
    {
      hide Sim.FramesOk, Sim.StackOrder, Sim.OwnedOk;
    }

    lemma FidsDiffer()
      requires memo.Base()
      ensures forall i: nat :: i < memo.sim.fp ==>
          i < memo.sim.frames.Length && memo.sim.frames[i].fid != memo.sim.frames[memo.sim.fp].fid
    {
      hide Sim.StackOrder, Sim.OwnedOk, Sim.SnapOk;
    }

    method Call(arg: Value, now: Value, ghost q: Memory, ghost k: nat) returns (ret: Value)
      requires Inv(q)
      modifies memo, memo.sim.mem
      ensures Inv(After(q, DoCall(arg, now), Ret(ret)))
      ensures old(memo.Faithful()) ==> ret == Answer(q.memo, arg, now).ret
      ensures old(memo.Faithful() && Fits(DoCall(arg, now))) ==> memo.Faithful()
      ensures k > 0 && old(Room(k)) ==> Room(k - 1)
    {
      hide Sim.FramesOk, Sim.StackOrder, Sim.OwnedOk;
      FrameInRange();
      ret := memo.Call(arg, now);
    }

    method Alloc(size: nat, align: nat, life: Lifetime, ghost q: Memory, ghost k: nat)
      requires Inv(q) && align > 0
      modifies this, memo.sim, memo.sim.frames
      ensures Inv(q) && (old(memo.Faithful()) ==> memo.Faithful()) && (old(Room(k)) ==> Room(k))
    {
      hide Sim.FramesOk, Sim.StackOrder, Sim.OwnedOk;
      var p := memo.Alloc(size, align, life);
      if p.At? {
        mine := mine + memo.sim.Block(p.a.r, p.a.o, size);
      }
    }

    method Write(a: Addr, b: Byte, ghost q: Memory, ghost k: nat)
      requires Inv(q) && a in mine
      modifies memo.sim.mem
      ensures Inv(q) && (old(memo.Faithful()) ==> memo.Faithful()) && (old(Room(k)) ==> Room(k))
    {
      hide Sim.FramesOk, Sim.StackOrder, Sim.OwnedOk;
      memo.Write(a, b);
    }

    method Savepoint(ghost q: Memory, ghost k: nat) returns (st: Status)
      requires Inv(q)
      modifies memo, memo.sim, memo.sim.mem, memo.sim.frames
      ensures Inv(After(q, DoSavepoint, Did(st)))
      ensures old(memo.sim.fp) < memo.sim.frames.Length == memo.sim.nframe && st == old(StatusOf(DoSavepoint))
      ensures (old(memo.Faithful()) ==> memo.Faithful()) && (old(Room(k)) ==> Room(k))
    {
      hide Sim.FramesOk, Sim.StackOrder, Sim.OwnedOk;
      FidsDiffer();
      st := memo.Savepoint();
    }

    method Branch(ghost q: Memory, ghost k: nat) returns (st: Status)
      requires Inv(q)
      modifies memo, memo.sim, memo.sim.mem, memo.sim.frames
      ensures Inv(After(q, DoBranch, Did(st)))
      ensures old(memo.sim.fp) < memo.sim.frames.Length == memo.sim.nframe && st == old(StatusOf(DoBranch))
      ensures (old(memo.Faithful()) ==> memo.Faithful()) && (old(Room(k)) ==> Room(k))
    {
      hide Sim.FramesOk, Sim.StackOrder, Sim.OwnedOk;
      FidsDiffer();
      st := memo.Branch();
    }

    method Up(n: nat, ghost q: Memory, ghost k: nat) returns (st: Status)
      requires Inv(q)
      modifies memo.sim
      ensures Inv(After(q, DoUp(n), Did(st)))
      ensures old(memo.sim.fp) < memo.sim.frames.Length == memo.sim.nframe && st == old(StatusOf(DoUp(n)))
      ensures (old(memo.Faithful()) ==> memo.Faithful()) && (old(Room(k)) ==> Room(k))
    {
      hide Sim.FramesOk, Sim.StackOrder, Sim.OwnedOk;
      st := memo.Up(n);
    }

    method Reload(ghost q: Memory, ghost k: nat) returns (st: Status)
      requires Inv(q)
      modifies this, memo, memo.sim, memo.sim.mem
      ensures Inv(After(q, DoReload, Did(st)))
      ensures old(memo.sim.fp) < memo.sim.frames.Length == memo.sim.nframe && st == old(StatusOf(DoReload))
      ensures (old(memo.Faithful()) ==> memo.Faithful()) && (old(Room(k)) ==> Room(k))
    {
      hide Sim.FramesOk, Sim.StackOrder, Sim.OwnedOk;
      assert SaveIs(memo.sim.fp, q.saves[memo.sim.fp]);
      st := memo.Reload();
      mine := memo.sim.InStack(mine);
    }

    method Load(n: nat, ghost q: Memory, ghost k: nat) returns (st: Status)
      requires Inv(q)
      modifies this, memo, memo.sim, memo.sim.mem
      ensures Inv(After(q, DoLoad(n), Did(st)))
      ensures old(memo.sim.fp) < memo.sim.frames.Length == memo.sim.nframe && st == old(StatusOf(DoLoad(n)))
      ensures (old(memo.Faithful()) ==> memo.Faithful()) && (old(Room(k)) ==> Room(k))
    {
      hide Sim.FramesOk, Sim.StackOrder, Sim.OwnedOk;
      assert n < |q.saves| ==> SaveIs(n, q.saves[n]);
      st := memo.Load(n);
      mine := memo.sim.InStack(mine);
    }

    method Enter(ghost q: Memory, ghost k: nat) returns (st: Status)
      requires Inv(q)
      modifies this, memo.sim, memo.sim.frames
      ensures Inv(After(q, DoEnter, Did(st)))
      ensures old(memo.sim.fp) < memo.sim.frames.Length == memo.sim.nframe && st == old(StatusOf(DoEnter))
      ensures (old(memo.Faithful()) ==> memo.Faithful()) && (old(Room(k)) ==> Room(k))
    {
      hide Sim.FramesOk, Sim.StackOrder, Sim.OwnedOk;
      st := memo.Enter();
      if st == Ok {
        mine := set a | a in mine && a.r != memo.sim.fp + 1;
      }
    }

    method EnterBranch(n: nat, ghost q: Memory, ghost k: nat) returns (st: Status)
      requires Inv(q)
      modifies this, memo, memo.sim, memo.sim.mem, memo.sim.frames
      ensures Inv(After(q, DoEnterBranch(n), Did(st)))
      ensures old(memo.sim.fp) < memo.sim.frames.Length == memo.sim.nframe && st == old(StatusOf(DoEnterBranch(n)))
      ensures (old(memo.Faithful()) ==> memo.Faithful()) && (old(Room(k)) ==> Room(k))
    {
      hide Sim.FramesOk, Sim.StackOrder, Sim.OwnedOk;
      assert n < |q.saves| ==> SaveIs(n, q.saves[n]);
      st := memo.EnterBranch(n);
      var s := memo.sim.InStack(mine);
      mine := set a | a in s && (st == Ok ==> a.r != memo.sim.fp + 1);
    }

    /** The savepoint that frame `fp` could get now. */
    function SaveStatus(): Status
      requires memo.sim.fp < memo.sim.frames.Length
      reads memo, memo.sim, memo.sim.frames
    {
      var f := memo.sim.frames[memo.sim.fp];
      if f.save then ESave else if memo.sim.Fits(f.ptr, memo.sim.vstack, BLOCK) then Ok else EAlloc
    }

    /** What an operation has to return that is not a call: the state of the frames decides. */
    function StatusOf(op: Op): Status
      requires memo.sim.fp < memo.sim.frames.Length == memo.sim.nframe
      reads memo, memo.sim, memo.sim.frames
    {
      var s := memo.sim;
      var f := s.frames[s.fp];
      match op
      case DoSavepoint => SaveStatus()
      case DoUp(n) => if n > s.fp then EFrame else Ok
      case DoReload => if f.save then Ok else ESave
      case DoLoad(n) => if n > s.fp then EFrame else if s.frames[n].save then Ok else ESave
      case DoEnter => if s.fp + 1 < s.nframe then Ok else EFrame
      case DoBranch => if f.branch then EBranch else SaveStatus()
      case DoEnterBranch(n) =>
        if n > s.fp then EFrame
        else if n < s.fp && !s.frames[n].save then ESave
        else if !s.frames[n].branch then EBranch
        else if n + 1 < s.nframe then Ok else EFrame
      case _ => Ok
    }

    lemma StatusKnown(q: Memory)
      requires Inv(q)
      ensures memo.sim.fp < memo.sim.frames.Length == memo.sim.nframe
    {
      hide Sim.FramesOk, Sim.StackOrder, Sim.OwnedOk;
    }

    /** One operation, whatever it is. */
    method Do(op: Op, ghost q: Memory, ghost k: nat) returns (r: Result)
      requires Inv(q)
      modifies this, memo, memo.sim, memo.sim.mem, memo.sim.frames
      ensures Inv(After(q, op, r)) && (old(memo.Faithful()) ==> Answers(q, op, r))
      ensures old(memo.sim.fp) < memo.sim.frames.Length == memo.sim.nframe
      ensures !op.DoCall? ==> r == Did(old(StatusOf(op)))
      ensures old(memo.Faithful() && Fits(op)) ==> memo.Faithful()
      ensures Calls([op]) <= k && old(Room(k)) ==> old(Fits(op)) && Room(k - Calls([op]))
    {
      hide Inv, Room, Fits, Memo.Faithful, Memo.Base, Sim.Valid;
      assert Inv(q) ==> memo.Base() by {
        InvBase(q);
      }
      if Room(k) && Calls([op]) <= k {
        RoomFits(op, k);
      }
      OneCall(op);
      OnlyCallsMiss(op);
      StatusKnown(q);
      match op {
        case DoCall(arg, now) =>
          var ret := Call(arg, now, q, k);
          r := Ret(ret);
        case DoAlloc(size, align, life) =>
          if align > 0 {
            Alloc(size, align, life, q, k);
          }
          r := Did(Ok);
        case DoWrite(a, b) =>
          if a in mine {
            Write(a, b, q, k);
          }
          r := Did(Ok);
        case DoSavepoint =>
          var st := Savepoint(q, k);
          r := Did(st);
        case DoUp(n) =>
          var st := Up(n, q, k);
          r := Did(st);
        case DoReload =>
          var st := Reload(q, k);
          r := Did(st);
        case DoLoad(n) =>
          var st := Load(n, q, k);
          r := Did(st);
        case DoEnter =>
          var st := Enter(q, k);
          r := Did(st);
        case DoBranch =>
          var st := Branch(q, k);
          r := Did(st);
        case DoEnterBranch(n) =>
          var st := EnterBranch(n, q, k);
          r := Did(st);
      }
    }

    lemma InvBase(q: Memory)
      requires Inv(q)
      ensures memo.Base()
    {
    }

    lemma OnlyCallsMiss(op: Op)
      requires memo.Base()
      ensures !op.DoCall? ==> Fits(op)
    {
    }

    /** Any sequence of operations. The memo and what the frames have saved of it are those of a one-entry memo; and as
        long as no miss hits a saved slot, every call returns what that memo has. With room for the levels of all calls
        this is so to the end. */
    method RunAll(ops: seq<Op>, ghost q: Memory, ghost k: nat) returns (rs: seq<Result>, ghost fits: bool)
      requires Inv(q)
      modifies this, memo, memo.sim, memo.sim.mem, memo.sim.frames
      ensures |rs| == |ops| && Inv(Afters(q, ops, rs))
      ensures fits ==> memo.Faithful() && AllAnswer(q, ops, rs)
      ensures old(memo.Faithful()) && Calls(ops) <= k && old(Room(k)) ==> fits
      decreases |ops|
    {
      hide Inv, Room, Fits, Memo.Faithful, Memo.Base, Sim.Valid;
      InvBase(q);
      fits := memo.Faithful();
      if ops == [] {
        return [], fits;
      }
      OneCall(ops[0]);
      fits := fits && Fits(ops[0]);
      var r := Do(ops[0], q, k);
      ghost var n := Calls([ops[0]]);
      var rest;
      ghost var more;
      rest, more := RunAll(ops[1..], After(q, ops[0], r), if n <= k then k - n else 0);
      fits := fits && more;
      rs := [r] + rest;
      assert rs[1..] == rest;
    }
  }

  lemma OneCall(op: Op)
    ensures Calls([op]) == if op.DoCall? then 1 else 0
  {
    assert [op][1..] == [];
  }
}
