/** Running compiled control code over the simulator: one shared call stack, copied when a branch reuses it. */
module Machines {
  import opened Sims
  import opened Controls
  import opened Nestings
  import opened Denotations

  /** Primitives only ever allocate more of the stack. */
  ghost predicate Allocates(w: World) {
    forall f, s :: |w(f, s).after| >= |s|
  }

  /** Primitives keep the stack below `limit` bytes. */
  ghost predicate Stays(w: World, limit: nat) {
    forall f, s :: |s| < limit ==> |w(f, s).after| < limit
  }

  /** A run that stops early has done a prefix of the work. */
  lemma {:induction false} BranchesPrefix(w: World, alts: seq<Code>, ks: seq<Code>, s: seq<Byte>, i: nat, j: nat)
    requires i <= j <= |alts|
    ensures Branches(w, alts, ks, s, i) <= Branches(w, alts, ks, s, j)
    decreases j
  {
    if i < j {
      BranchesPrefix(w, alts, ks, s, i, j - 1);
    }
  }

  /** `stack[bottom..top]`, next jump first. */
  ghost function Active(stack: map<int, Code>, bottom: int, top: int): (cs: seq<Code>)
    requires forall i :: bottom <= i <= top ==> i in stack
    decreases top - bottom
  {
    if top < bottom then [] else [stack[top]] + Active(stack, bottom, top - 1)
  }

  /** Two stretches with the same entries are the same call stack. */
  lemma {:induction false} ActiveSame(a: map<int, Code>, b: map<int, Code>, bottom: int, top: int, shift: int)
    requires forall i :: bottom <= i <= top ==> i in a
    requires forall i :: bottom + shift <= i <= top + shift ==> i in b && b[i] == a[i - shift]
    ensures Active(b, bottom + shift, top + shift) == Active(a, bottom, top)
    decreases top - bottom
  {
    if bottom <= top {
      assert b[top + shift] == a[top];
      ActiveSame(a, b, bottom, top - 1, shift);
    }
  }

  lemma {:induction false} ActiveKept(a: map<int, Code>, b: map<int, Code>, bottom: int, top: int)
    requires forall i :: bottom <= i <= top ==> i in a && i in b && b[i] == a[i]
    ensures Active(b, bottom, top) == Active(a, bottom, top)
    decreases top - bottom
  {
    if bottom <= top {
      ActiveKept(a, b, bottom, top - 1);
    }
  }

  lemma BranchesNone(w: World, alts: seq<Code>, ks: seq<Code>, s: seq<Byte>)
    ensures Branches(w, alts, ks, s, 0) == []
  {
  }

  lemma BranchesNext(w: World, alts: seq<Code>, ks: seq<Code>, s: seq<Byte>, i: nat)
    requires i < |alts|
    ensures Branches(w, alts, ks, s, i + 1) == Branches(w, alts, ks, s, i) + Continue(w, alts[i], ks, s)
    ensures Branches(w, alts, ks, s, i + 1) <= Branches(w, alts, ks, s, |alts|)
  {
    BranchesPrefix(w, alts, ks, s, i + 1, |alts|);
  }

  lemma RunningCall(w: World, call: Code, next: Code, ks: seq<Code>, s: seq<Byte>)
    ensures Running(w, [CChainCall(call, next)] + ks, s) == Running(w, [call] + ([next] + ks), s)
  {
    assert ([CChainCall(call, next)] + ks)[1..] == ks;
    assert [call] + ([next] + ks) == [call, next] + ks;
  }

  class Machine {
    const sim: Sim
    const w: World
    var stack: map<int, Code>
    var trace: seq<Event>

    /** `newstack`: three entries to copy from, and the exit. */
    constructor (sim: Sim, w: World)
      ensures this.sim == sim && this.w == w && trace == [] && StackOk(4, 4) && Active(stack, 4, 4) == [CExit]
    {
      this.sim, this.w := sim, w;
      stack := map[1 := CUnderflow, 2 := CUnderflow, 3 := CUnderflow, 4 := CExit];
      trace := [];
    }

    /** `stack[bottom..top]` is in use, and what it returns to in the end is the exit. */
    ghost predicate StackOk(bottom: int, top: int)
      reads this`stack
    {
      && 4 <= bottom <= top + 1 && 4 <= top + 1 && (forall i :: 1 <= i <= top ==> i in stack) && 3 <= top
      && (bottom <= top ==> stack[bottom] == CExit)
    }

    /** `copystack`: a copy of the active call stack above it; short stacks are copied with three entries to spare. */
    method CopyStack(bottom: int, top: int) returns (bottom': int, top': int)
      requires StackOk(bottom, top) && bottom <= top
      modifies this`stack
      ensures StackOk(bottom', top') && top < bottom' <= top'
      ensures Active(stack, bottom', top') == old(Active(stack, bottom, top))
      ensures forall i :: i <= top && i in old(stack) ==> i in stack && stack[i] == old(stack[i])
    {
      if top - bottom < 4 {
        CopyFour(bottom, top);
        bottom', top' := bottom + 4, top + 4;
      } else {
        CopyAll(bottom, top);
        bottom', top' := top + 1, top + 1 + (top - bottom);
      }
    }

    /** The unrolled case: the four entries up to `top`, of which the active ones are the last. */
    method CopyFour(bottom: int, top: int)
      requires StackOk(bottom, top) && bottom <= top < bottom + 4
      modifies this`stack
      ensures StackOk(bottom + 4, top + 4) && Active(stack, bottom + 4, top + 4) == old(Active(stack, bottom, top))
      ensures forall i :: i <= top && i in old(stack) ==> i in stack && stack[i] == old(stack[i])
    {
      hide Active;
      stack := stack[top + 1 := stack[top - 3]][top + 2 := stack[top - 2]][top + 3 := stack[top - 1]][top + 4 :=
          stack[top]];
      ActiveSame(old(stack), stack, bottom, top, 4);
    }

    method CopyAll(bottom: int, top: int)
      requires StackOk(bottom, top) && bottom <= top
      modifies this`stack
      ensures StackOk(top + 1, top + 1 + (top - bottom))
      ensures Active(stack, top + 1, top + 1 + (top - bottom)) == old(Active(stack, bottom, top))
      ensures forall i :: i <= top && i in old(stack) ==> i in stack && stack[i] == old(stack[i])
    {
      hide Active;
      ghost var shift := top + 1 - bottom;
      var j := top;
      for i := bottom to top + 1
        invariant j == top + (i - bottom)
        invariant forall l :: 1 <= l <= top ==> l in stack && stack[l] == old(stack[l])
        invariant forall l :: l <= top && l in old(stack) ==> l in stack && stack[l] == old(stack[l])
        invariant forall l :: top < l <= j ==> l in stack && stack[l] == old(stack[l - shift])
      {
        j := j + 1;
        stack := stack[j := stack[i]];
      }
      ActiveSame(old(stack), stack, bottom, top, shift);
    }

    /** What is below `bottom` belongs to suspended runs. */
    twostate predicate Undisturbed(bottom: int)
      reads this`stack
    {
      forall i :: i < bottom && i in old(stack) ==> i in stack && stack[i] == old(stack[i])
    }

    /** Frames below `n` and everything that was saved are as before. */
    twostate predicate FramesKept(n: nat)
      reads sim, sim.frames
    {
      && n <= sim.fp < sim.frames.Length && sim.SavedKept()
      && (forall i :: 0 <= i < n ==> sim.frames[i] == old(sim.frames[i]))
    }

    /** The frame on top can become a branch point, with room for `limit` bytes, with frames for `depth` more. */
    ghost predicate Ready(limit: nat, depth: nat)
      reads sim, sim.frames
    {
      && sim.fp < sim.frames.Length && !sim.frames[sim.fp].save && !sim.frames[sim.fp].branch
      && AlignUp(sim.frames[sim.fp].ptr, BLOCK) + limit <= sim.rsize && sim.vstack < limit
      && sim.fp + depth < sim.nframe
    }

    /** Running `cs` needs no more frames and room than there are. */
    ghost predicate Safe(limit: nat, cs: seq<Code>)
      reads sim, sim.frames
    {
      Ready(limit, NestSum(cs)) && Sounds(cs) && Stays(w, limit)
    }

    lemma SafeCons(limit: nat, c: Code, ks: seq<Code>)
      ensures Safe(limit, [c] + ks) <==>
          Ready(limit, Nest(c) + NestSum(ks)) && Sound(c) && Sounds(ks) && Stays(w, limit)
    {
      NestCons(c, ks);
    }

    lemma SafeCall(limit: nat, call: Code, next: Code, ks: seq<Code>)
      ensures Safe(limit, [CChainCall(call, next)] + ks) ==> Safe(limit, [call] + ([next] + ks))
    {
      hide Ready;
      SafeCons(limit, CChainCall(call, next), ks);
      SafeCons(limit, call, [next] + ks);
      NestCons(next, ks);
    }

    /** From the state `s` saved at branch point `f`, the alternative `c` needs no more frames or room than there is. */
    ghost predicate Branchable(f: nat, limit: nat, c: Code, ks: seq<Code>, s: seq<Byte>) {
      f + 1 + Nest(c) + NestSum(ks) < sim.nframe && |s| < limit <= sim.rsize && Sound(c) && Sounds(ks)
          && Stays(w, limit)
    }

    lemma AnyBranchable(limit: nat, alts: seq<Code>, ks: seq<Code>)
      requires sim.Shape()
      ensures Safe(limit, [CAny(alts)] + ks) ==>
          !sim.frames[sim.fp].save && !sim.frames[sim.fp].branch && sim.Fits(sim.frames[sim.fp].ptr, sim.vstack, BLOCK)
      ensures Safe(limit, [CAny(alts)] + ks) ==> forall i :: 0 <= i < |alts| ==>
          Branchable(sim.fp, limit, alts[i], ks, sim.Contents())
    {
      hide AlignUp, Stays;
      SafeCons(limit, CAny(alts), ks);
      forall i | 0 <= i < |alts|
        ensures Nest(alts[i]) <= NestMax(alts)
      {
        NestIn(alts, i);
      }
    }

    /** In a fresh frame with the state of its branch point. */
    lemma FreshSafe(f: nat, limit: nat, c: Code, ks: seq<Code>, s: seq<Byte>)
      requires sim.Shape() && sim.fp == f + 1 && sim.Contents() == s && Branchable(f, limit, c, ks, s)
      requires !sim.frames[f + 1].save && !sim.frames[f + 1].branch && sim.frames[f + 1].ptr == 0
      ensures Safe(limit, [c] + ks)
    {
      SafeCons(limit, c, ks);
      assert AlignUp(0, BLOCK) == 0;
    }

    /** All of `work` has been done, or, after an error, a part of it. */
    twostate predicate Worked(ok: bool, work: seq<Event>)
      reads this`trace
    {
      trace <= old(trace) + work && (ok ==> trace == old(trace) + work)
    }

    /** A call of primitive `f`. */
    method Call(f: nat, ghost limit: nat) returns (ok: bool, go: bool)
      requires sim.Valid() && Allocates(w)
      modifies this`trace, sim`vstack, sim.mem
      ensures Stays(w, limit) && old(sim.vstack) < limit <= sim.rsize ==> ok && sim.vstack < limit
      ensures sim.Valid() && trace == old(trace) + [Event(f, old(sim.Contents()))]
      ensures ok ==> go == w(f, old(sim.Contents())).go && sim.Contents() == w(f, old(sim.Contents())).after
    {
      hide Sim.FramesOk, Sim.StackOrder, Sim.OwnedOk;
      var s := sim.Read();
      trace := trace + [Event(f, s)];
      var e := w(f, s);
      assert |e.after| >= |s|;
      ok := sim.Replace(e.after);
      go := e.go;
    }

    /** A jump to `c` with the call stack `stack[bottom..top]`, up to the end of the run. */
    method Run(c: Code, bottom: int, top: int, ghost limit: nat) returns (ok: bool)
      requires sim.Valid() && StackOk(bottom, top) && Allocates(w) && (top < bottom ==> c == CExit)
      modifies this`stack, this`trace, sim, sim.mem, sim.frames
      ensures sim.Valid() && Undisturbed(bottom) && FramesKept(old(sim.fp))
      ensures Worked(ok, Running(w, [c] + old(Active(stack, bottom, top)), old(sim.Contents())))
      ensures old(Safe(limit, [c] + Active(stack, bottom, top))) ==> ok
      decreases Weight(c) + Weights(Active(stack, bottom, top)), 2
    {
      hide Sim.FramesOk, Sim.StackOrder, Sim.OwnedOk, Sim.Contents;
      ghost var ks := Active(stack, bottom, top);
      assert ([c] + ks)[1..] == ks;
      SafeCons(limit, c, ks);
      match c {
        case CNothing => ok := Return(bottom, top, limit);
        case CExit => ok := true;
        case CUnderflow => ok := false;
        case CPrim(f) => ok := RunPrim(f, bottom, top, limit);
        case CChainPrim(f, next) => ok := RunChainPrim(f, next, bottom, top, limit);
        case CChainCall(call, next) => ok := RunChainCall(call, next, bottom, top, limit);
        case CAny(alts) =>
          assert Running(w, [c] + ks, sim.Contents()) == Branches(w, alts, ks, sim.Contents(), |alts|);
          ok := RunAny(alts, bottom, top, limit);
      }
    }

    /** Returns to the next jump. */
    method Return(bottom: int, top: int, ghost limit: nat) returns (ok: bool)
      requires sim.Valid() && StackOk(bottom, top) && Allocates(w) && bottom <= top
      modifies this`stack, this`trace, sim, sim.mem, sim.frames
      ensures sim.Valid() && Undisturbed(bottom) && FramesKept(old(sim.fp))
      ensures Worked(ok, Running(w, old(Active(stack, bottom, top)), old(sim.Contents())))
      ensures old(Safe(limit, Active(stack, bottom, top))) ==> ok
      decreases Weights(Active(stack, bottom, top)), 3
    {
      hide Sim.FramesOk, Sim.StackOrder, Sim.OwnedOk, Sim.Contents;
      ghost var ks := Active(stack, bottom, top);
      assert ks == [stack[top]] + Active(stack, bottom, top - 1);
      OneWeight(stack[top], Active(stack, bottom, top - 1));
      ok := Run(stack[top], bottom, top - 1, limit);
    }

    method RunPrim(f: nat, bottom: int, top: int, ghost limit: nat) returns (ok: bool)
      requires sim.Valid() && StackOk(bottom, top) && Allocates(w) && bottom <= top
      modifies this`stack, this`trace, sim, sim.mem, sim.frames
      ensures sim.Valid() && Undisturbed(bottom) && FramesKept(old(sim.fp))
      ensures Worked(ok, Running(w, [CPrim(f)] + old(Active(stack, bottom, top)), old(sim.Contents())))
      ensures old(Safe(limit, [CPrim(f)] + Active(stack, bottom, top))) ==> ok
      decreases 1 + Weights(Active(stack, bottom, top)), 1
    {
      hide Sim.FramesOk, Sim.StackOrder, Sim.OwnedOk, Sim.Contents;
      ghost var ks := Active(stack, bottom, top);
      assert ([CPrim(f)] + ks)[1..] == ks;
      SafeCons(limit, CPrim(f), ks);
      var go;
      ok, go := Call(f, limit);
      if ok && go {
        ok := Return(bottom, top, limit);
      }
    }

    method RunChainPrim(f: nat, next: Code, bottom: int, top: int, ghost limit: nat) returns (ok: bool)
      requires sim.Valid() && StackOk(bottom, top) && Allocates(w) && bottom <= top
      modifies this`stack, this`trace, sim, sim.mem, sim.frames
      ensures sim.Valid() && Undisturbed(bottom) && FramesKept(old(sim.fp))
      ensures Worked(ok, Running(w, [CChainPrim(f, next)] + old(Active(stack, bottom, top)), old(sim.Contents())))
      ensures old(Safe(limit, [CChainPrim(f, next)] + Active(stack, bottom, top))) ==> ok
      decreases 1 + Weight(next) + Weights(Active(stack, bottom, top)), 1
    {
      hide Sim.FramesOk, Sim.StackOrder, Sim.OwnedOk, Sim.Contents;
      ghost var ks := Active(stack, bottom, top);
      assert ([CChainPrim(f, next)] + ks)[1..] == ks;
      SafeCons(limit, CChainPrim(f, next), ks);
      var go;
      ok, go := Call(f, limit);
      if ok && go {
        SafeCons(limit, next, ks);
        ok := Run(next, bottom, top, limit);
      }
    }

    method RunChainCall(call: Code, next: Code, bottom: int, top: int, ghost limit: nat) returns (ok: bool)
      requires sim.Valid() && StackOk(bottom, top) && Allocates(w) && bottom <= top
      modifies this`stack, this`trace, sim, sim.mem, sim.frames
      ensures sim.Valid() && Undisturbed(bottom) && FramesKept(old(sim.fp))
      ensures Worked(ok, Running(w, [CChainCall(call, next)] + old(Active(stack, bottom, top)), old(sim.Contents())))
      ensures old(Safe(limit, [CChainCall(call, next)] + Active(stack, bottom, top))) ==> ok
      decreases 1 + Weight(call) + Weight(next) + Weights(Active(stack, bottom, top)), 1
    {
      hide Sim.FramesOk, Sim.StackOrder, Sim.OwnedOk, Sim.Contents, Running, Active;
      RunningCall(w, call, next, Active(stack, bottom, top), sim.Contents());
      OneWeight(next, Active(stack, bottom, top));
      SafeCall(limit, call, next, Active(stack, bottom, top));
      Push(next, bottom, top);
      ok := Run(call, bottom, top + 1, limit);
    }

    method Push(next: Code, bottom: int, top: int)
      requires StackOk(bottom, top) && bottom <= top
      modifies this`stack
      ensures StackOk(bottom, top + 1) && Active(stack, bottom, top + 1) == [next] + old(Active(stack, bottom, top))
      ensures forall i :: i <= top && i in old(stack) ==> i in stack && stack[i] == old(stack[i])
    {
      stack := stack[top + 1 := next];
      ActiveKept(old(stack), stack, bottom, top);
    }

    /** One alternative of a branch; all but the last run on a copy of the call stack. */
    method RunAlternative(c: Code, last: bool, bottom: int, top: int, ghost limit: nat) returns (ok: bool)
      requires sim.Valid() && StackOk(bottom, top) && Allocates(w) && bottom <= top
      modifies this`stack, this`trace, sim, sim.mem, sim.frames
      ensures sim.Valid() && Undisturbed(if last then bottom else top + 1) && FramesKept(old(sim.fp))
      ensures Worked(ok, Continue(w, c, old(Active(stack, bottom, top)), old(sim.Contents())))
      ensures old(Safe(limit, [c] + Active(stack, bottom, top))) ==> ok
      decreases Weight(c) + Weights(Active(stack, bottom, top)), 3
    {
      hide Sim.FramesOk, Sim.StackOrder, Sim.OwnedOk, Sim.Contents, Running, Active;
      if last {
        ok := Run(c, bottom, top, limit);
      } else {
        var b, t := CopyStack(bottom, top);
        ok := Run(c, b, t, limit);
      }
    }

    /** The frame `f` is the branch point of a branch that began in state `s`. */
    ghost predicate BranchAt(f: nat, s: seq<Byte>)
      reads sim, sim.frames
    {
      && f <= sim.fp < sim.frames.Length && sim.frames[f].branch && sim.frames[f].save
      && sim.frames[f].fid in sim.saved && sim.saved[sim.frames[f].fid] == s
    }

    method RunAny(alts: seq<Code>, bottom: int, top: int, ghost limit: nat) returns (ok: bool)
      requires sim.Valid() && StackOk(bottom, top) && Allocates(w) && bottom <= top
      modifies this`stack, this`trace, sim, sim.mem, sim.frames
      ensures sim.Valid() && Undisturbed(bottom) && FramesKept(old(sim.fp))
      ensures Worked(ok, Branches(w, alts, old(Active(stack, bottom, top)), old(sim.Contents()), |alts|))
      ensures old(Safe(limit, [CAny(alts)] + Active(stack, bottom, top))) ==> ok
      decreases 1 + Weights(alts) + Weights(Active(stack, bottom, top)), 1
    {
      hide Sim.FramesOk, Sim.StackOrder, Sim.OwnedOk, Sim.Contents, Running, Active, Continue, Branches;
      ghost var ks, s0 := Active(stack, bottom, top), sim.Contents();
      BranchesNone(w, alts, ks, s0);
      AnyBranchable(limit, alts, ks);
      var st := sim.Branch();
      if st != Ok {
        return false;
      }
      var f := sim.fp;
      for i := 0 to |alts|
        invariant sim.Valid() && BranchAt(f, s0) && FramesKept(f) && Undisturbed(bottom)
        invariant if i == 0 then sim.fp == f && sim.Contents() == s0 else sim.fp > f
        invariant i < |alts| ==> StackOk(bottom, top) && Active(stack, bottom, top) == ks
        invariant trace == old(trace) + Branches(w, alts, ks, s0, i)
      {
        BranchesNext(w, alts, ks, s0, i);
        WeightsIn(alts, i);
        ok := NextAlternative(f, alts[i], i + 1 == |alts|, bottom, top, s0, limit);
        if !ok {
          return;
        }
      }
      ok := true;
    }

    /** Enters the next alternative of the branch point `f`, which rolls the stack back to `s`, and runs it. */
    method NextAlternative(f: nat, c: Code, last: bool, bottom: int, top: int, ghost s: seq<Byte>, ghost limit: nat)
      returns (ok: bool)
      requires sim.Valid() && StackOk(bottom, top) && Allocates(w) && bottom <= top
      requires BranchAt(f, s) && (sim.fp == f ==> sim.Contents() == s)
      modifies this`stack, this`trace, sim, sim.mem, sim.frames
      ensures sim.Valid() && Undisturbed(bottom) && FramesKept(f) && (ok ==> BranchAt(f, s) && sim.fp > f)
      ensures Worked(ok, Continue(w, c, old(Active(stack, bottom, top)), s))
      ensures Branchable(f, limit, c, old(Active(stack, bottom, top)), s) ==> ok
      ensures ok && !last ==> StackOk(bottom, top) && Active(stack, bottom, top) == old(Active(stack, bottom, top))
      decreases Weight(c) + Weights(Active(stack, bottom, top)), 4
    {
      hide Sim.FramesOk, Sim.StackOrder, Sim.OwnedOk, Sim.Contents, Running, Active, Continue, Branches;
      var st := sim.EnterBranch(f);
      if st != Ok {
        return false;
      }
      if Branchable(f, limit, c, Active(stack, bottom, top), s) {
        FreshSafe(f, limit, c, Active(stack, bottom, top), s);
      }
      ok := RunAlternative(c, last, bottom, top, limit);
      if !last {
        ActiveKept(old(stack), stack, bottom, top);
      }
    }
  }

  lemma OneEmitted(n: Node)
    ensures Emits([n]) + [CExit] == [Emit(n)] + [CExit]
    ensures NestSum([Emit(n)] + [CExit]) <= Branching(n) && Sounds([Emit(n)] + [CExit])
  {
    hide Nest, Sound, Emit;
    assert [n][1..] == [];
    EmitNests(n);
    ExitNests();
    NestCons(Emit(n), [CExit]);
  }

  lemma ExitNests()
    ensures NestSum([CExit]) == 0 && Sounds([CExit])
  {
    assert [CExit][1..] == [];
  }

  /** The frame on top has neither savepoint nor branch point, its region has room for `limit` more bytes, which the
      primitives keep to, and there are frames for the branch points of `n`. */
  ghost predicate Suffices(sim: Sim, w: World, n: Node, limit: nat)
    reads sim, sim.frames
  {
    && sim.fp < sim.frames.Length && !sim.frames[sim.fp].save && !sim.frames[sim.fp].branch
    && AlignUp(sim.frames[sim.fp].ptr, BLOCK) + limit <= sim.rsize && sim.vstack < limit && Stays(w, limit)
    && sim.fp + Branching(n) < sim.nframe
  }

  /** Compiles the tree `n` and runs it: exactly the calls that `n` means are made, or, after an error of the
      simulator, the first of them. With enough room there is no error. */
  method Execute(sim: Sim, w: World, n: Node, ghost limit: nat) returns (trace: seq<Event>, ok: bool)
    requires sim.Valid() && Allocates(w)
    modifies sim, sim.mem, sim.frames
    ensures sim.Valid()
    ensures trace <= Meaning(w, [n], old(sim.Contents())) && (ok ==> trace == Meaning(w, [n], old(sim.Contents())))
    ensures trace <= CallsOf(w, n, old(sim.Contents())) && (ok ==> trace == CallsOf(w, n, old(sim.Contents())))
    ensures old(Suffices(sim, w, n, limit)) ==> ok
  {
    hide Sim.FramesOk, Sim.StackOrder, Sim.OwnedOk, Sim.Contents, AlignUp, Stays, Branching, NestSum, Sounds, Denotes;
    ghost var s := sim.Contents();
    var compiler := new Compiler();
    var code := compiler.CompileNode(n);
    var m := new Machine(sim, w);
    CompilationPreserves(w, [n], s);
    OneEmitted(n);
    CallsMean(w, n, s);
    ok := m.Run(code, 4, 4, limit);
    trace := m.trace;
  }
}
